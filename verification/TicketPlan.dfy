/** Which tickets a prune keeps: the newest, and always the newest ticket of a security test. */
module TicketPlan {
  import opened Wrappers

  type Id = string

  datatype Signal = Signal(kind: string, payload: string)

  datatype Ticket = Ticket(signal: Id, updatedAt: string)

  datatype Tables = Tables(
    signals: map<Id, Signal>, tickets: map<Id, Ticket>, occurrences: map<nat, Id>,
    comments: map<Id, Id>, tasks: map<Id, Id>, audit: map<nat, Id>, ingests: map<string, string>,
    trigger: Option<string>, keptTable: Option<set<Id>>)

  /** Tickets point at signals, occurrences at signals, comments, tasks and audit events at tickets. */
  predicate ForeignKeys(t: Tables) {
    && (forall k :: k in t.tickets ==> t.tickets[k].signal in t.signals)
    && (forall k :: k in t.occurrences ==> t.occurrences[k] in t.signals)
    && (forall k :: k in t.comments ==> t.comments[k] in t.tickets)
    && (forall k :: k in t.tasks ==> t.tasks[k] in t.tickets)
    && (forall k :: k in t.audit ==> t.audit[k] in t.tickets)
  }

  // ----- the order of the list -----

  /** Text comparison, character by character. */
  predicate TextLess(a: string, b: string) {
    b != "" && (a == "" || a[0] < b[0] || (a[0] == b[0] && TextLess(a[1..], b[1..])))
  }

  lemma {:induction false} TextTotal(a: string, b: string)
    ensures TextLess(a, b) || TextLess(b, a) || a == b
    ensures !(TextLess(a, b) && TextLess(b, a)) && !TextLess(a, a)
  {
    if a != "" {
      TextTotal(a[1..], a[1..]);
    }
    if a != "" && b != "" && a[0] == b[0] {
      TextTotal(a[1..], b[1..]);
      assert a == [a[0]] + a[1..] && b == [b[0]] + b[1..];
    }
  }

  lemma {:induction false} TextTransitive(a: string, b: string, c: string)
    requires TextLess(a, b) && TextLess(b, c)
    ensures TextLess(a, c)
  {
    if a != "" && b != "" && c != "" && a[0] == b[0] == c[0] {
      TextTransitive(a[1..], b[1..], c[1..]);
    }
  }

  /** Where two texts first differ, the lesser has the lesser character or has ended. */
  ghost predicate Precedes(a: string, b: string) {
    exists m: nat :: m <= |a| && m < |b| && a[..m] == b[..m] && (m == |a| || a[m] < b[m])
  }

  lemma {:induction false} TextLessMeans(a: string, b: string)
    ensures TextLess(a, b) <==> Precedes(a, b)
  {
    if a != "" && b != "" && a[0] == b[0] {
      TextLessMeans(a[1..], b[1..]);
      if TextLess(a, b) {
        var u, v := a[1..], b[1..];
        var m: nat :| m <= |u| && m < |v| && u[..m] == v[..m] && (m == |u| || u[m] < v[m]);
        assert a[..m + 1] == [a[0]] + u[..m] && b[..m + 1] == [b[0]] + v[..m];
      }
      if Precedes(a, b) {
        var m: nat :| m <= |a| && m < |b| && a[..m] == b[..m] && (m == |a| || a[m] < b[m]);
        assert m > 0;
        assert a[1..][..m - 1] == a[..m][1..] && b[1..][..m - 1] == b[..m][1..];
      }
    } else if TextLess(a, b) {
      assert a[..0] == b[..0];
    } else if m: nat :| m <= |a| && m < |b| && a[..m] == b[..m] && (m == |a| || a[m] < b[m]) {
      SameStart(a, b, m);
    }
  }

  lemma SameStart(a: string, b: string, m: nat)
    requires m <= |a| && m <= |b| && a[..m] == b[..m]
    ensures m > 0 ==> a[0] == b[0]
  {
    if m > 0 {
      assert a[..m][0] == b[..m][0];
    }
  }

  /** A row of the query: a ticket with its signal. */
  datatype Row = Row(id: Id, ticket: Ticket, signal: Signal)

  /** Newest update first, then by id. */
  predicate ComesBefore(a: Row, b: Row) {
    || TextLess(b.ticket.updatedAt, a.ticket.updatedAt)
    || (a.ticket.updatedAt == b.ticket.updatedAt && TextLess(a.id, b.id))
  }

  lemma ComesBeforeTotal(a: Row, b: Row)
    requires a.id != b.id
    ensures ComesBefore(a, b) <==> !ComesBefore(b, a)
  {
    TextTotal(a.id, b.id);
    TextTotal(a.ticket.updatedAt, b.ticket.updatedAt);
  }

  lemma ComesBeforeTransitive(a: Row, b: Row, c: Row)
    requires ComesBefore(a, b) && ComesBefore(b, c)
    ensures ComesBefore(a, c)
  {
    if TextLess(b.ticket.updatedAt, a.ticket.updatedAt) && TextLess(c.ticket.updatedAt, b.ticket.updatedAt) {
      TextTransitive(c.ticket.updatedAt, b.ticket.updatedAt, a.ticket.updatedAt);
    } else if a.ticket.updatedAt == b.ticket.updatedAt == c.ticket.updatedAt {
      TextTransitive(a.id, b.id, c.id);
    }
  }

  /** One ticket was updated later than another one, or at the same time and has the lesser id. */
  ghost predicate IsNewer(t: Tables, k: Id, than: Id)
    requires k in t.tickets && than in t.tickets
  {
    var u, v := t.tickets[k].updatedAt, t.tickets[than].updatedAt;
    Precedes(v, u) || (u == v && Precedes(k, than))
  }

  lemma EarlierRowIsNewer(t: Tables, a: Row, b: Row)
    requires IsRowOf(t, a) && IsRowOf(t, b)
    ensures ComesBefore(a, b) <==> IsNewer(t, a.id, b.id)
  {
    hide TextLess, Precedes;
    TextLessMeans(b.ticket.updatedAt, a.ticket.updatedAt);
    TextLessMeans(a.id, b.id);
  }

  predicate IsRowOf(t: Tables, r: Row) {
    && r.id in t.tickets && t.tickets[r.id] == r.ticket
    && r.ticket.signal in t.signals && t.signals[r.ticket.signal] == r.signal
  }

  /** The answer of the query: every ticket that has its signal, once, in order. */
  ghost predicate IsQuery(t: Tables, rows: seq<Row>) {
    && (forall i :: 0 <= i < |rows| ==> IsRowOf(t, rows[i]))
    && (forall i, j :: 0 <= i < j < |rows| ==> ComesBefore(rows[i], rows[j]) && rows[i].id != rows[j].id)
    && (forall k :: k in t.tickets && t.tickets[k].signal in t.signals ==> Listed(rows, k))
  }

  predicate Listed(rows: seq<Row>, k: Id) {
    exists i :: 0 <= i < |rows| && rows[i].id == k
  }

  /** Sorted by insertion; the database engine's own way is not part of this model. */
  method Query(t: Tables) returns (rows: seq<Row>)
    ensures IsQuery(t, rows)
  {
    rows := [];
    var left := t.tickets.Keys;
    while left != {}
      invariant left <= t.tickets.Keys
      invariant forall r :: r in rows ==> IsRowOf(t, r) && r.id !in left
      invariant forall i, j :: 0 <= i < j < |rows| ==> ComesBefore(rows[i], rows[j]) && rows[i].id != rows[j].id
      invariant forall k :: k in t.tickets && k !in left && t.tickets[k].signal in t.signals ==> Listed(rows, k)
    {
      hide ComesBefore;
      var k :| k in left;
      var ticket := t.tickets[k];
      ghost var was := rows;
      if ticket.signal in t.signals {
        rows := Insert(rows, Row(k, ticket, t.signals[ticket.signal]));
      }
      left := left - {k};
      forall l | l in t.tickets && l !in left && t.tickets[l].signal in t.signals ensures Listed(rows, l) {
        if l != k {
          assert Listed(was, l);
        }
      }
    }
  }

  method Insert(rows: seq<Row>, r: Row) returns (longer: seq<Row>)
    requires forall i, j :: 0 <= i < j < |rows| ==> ComesBefore(rows[i], rows[j]) && rows[i].id != rows[j].id
    requires forall i :: 0 <= i < |rows| ==> rows[i].id != r.id
    ensures forall i, j :: 0 <= i < j < |longer| ==> ComesBefore(longer[i], longer[j]) && longer[i].id != longer[j].id
    ensures forall x :: x in longer <==> x == r || x in rows
    ensures forall k :: Listed(longer, k) <==> k == r.id || Listed(rows, k)
  {
    hide ComesBefore;
    var n := 0;
    while n < |rows| && ComesBefore(rows[n], r)
      invariant 0 <= n <= |rows|
      invariant forall i :: 0 <= i < n ==> ComesBefore(rows[i], r)
    {
      n := n + 1;
    }
    longer := rows[..n] + [r] + rows[n..];
    assert longer[n] == r;
    forall i | n <= i < |rows| ensures ComesBefore(r, rows[i]) {
      ComesBeforeTotal(rows[n], r);
      if n < i {
        ComesBeforeTransitive(r, rows[n], rows[i]);
      }
    }
    assert forall i :: 0 <= i < |longer| ==> longer[i] == if i < n then rows[i] else if i == n then r else rows[i - 1];
    forall k ensures Listed(longer, k) <==> k == r.id || Listed(rows, k) {
      if Listed(rows, k) {
        var i :| 0 <= i < |rows| && rows[i].id == k;
        assert longer[if i < n then i else i + 1].id == k;
      }
    }
  }

  // ----- the plan -----

  const HOST_WRITE := "host_modbus_write"
  const SECURITY_TEST := "security_test"

  /** Reads the classification out of a payload; None when it cannot be read. */
  type Classifier = string -> Option<string>

  predicate Malformed(c: Classifier, r: Row) {
    r.signal.kind == HOST_WRITE && c(r.signal.payload).None?
  }

  predicate IsSecurityTest(c: Classifier, r: Row) {
    r.signal.kind == HOST_WRITE && c(r.signal.payload) == Some(SECURITY_TEST)
  }

  datatype PruneError =
    | NegativeRetain | MissingTrigger | BrokenIntegrity | Unclassifiable(id: Id)
    | StatementFailed | TicketCountChanged | SignalCountDiffers | OccurrenceCountDiffers | TriggerNotRestored
    | IngestsChanged | BackupFailed | CommitFailed

  /** The first security test of the list; a row that cannot be classified raises only when it is reached. */
  function FirstProtected(c: Classifier, rows: seq<Row>): Result<Option<Id>, PruneError> {
    if rows == [] then Ok(None)
    else if Malformed(c, rows[0]) then Err(Unclassifiable(rows[0].id))
    else if IsSecurityTest(c, rows[0]) then Ok(Some(rows[0].id))
    else FirstProtected(c, rows[1..])
  }

  /** Nothing before position `i` ends the search. */
  ghost predicate ReachesRow(c: Classifier, rows: seq<Row>, i: int) {
    0 <= i < |rows| && forall j :: 0 <= j < i ==> !IsSecurityTest(c, rows[j]) && !Malformed(c, rows[j])
  }

  ghost predicate FailsAt(c: Classifier, rows: seq<Row>, i: int) {
    ReachesRow(c, rows, i) && Malformed(c, rows[i])
  }

  ghost predicate FindsAt(c: Classifier, rows: seq<Row>, i: int) {
    ReachesRow(c, rows, i) && IsSecurityTest(c, rows[i])
  }

  /** The search fails exactly when an unreadable classification stands before every security test, and
      otherwise finds the first security test if there is one. */
  lemma {:induction false} FirstProtectedIsFirst(c: Classifier, rows: seq<Row>)
    ensures match FirstProtected(c, rows) {
              case Err(e) => exists i :: FailsAt(c, rows, i) && e == Unclassifiable(rows[i].id)
              case Ok(Some(id)) => exists i :: FindsAt(c, rows, i) && rows[i].id == id
              case Ok(None) => forall i :: 0 <= i < |rows| ==> !IsSecurityTest(c, rows[i]) && !Malformed(c, rows[i])
            }
  {
    if rows != [] {
      if Malformed(c, rows[0]) {
        assert FailsAt(c, rows, 0);
      } else if IsSecurityTest(c, rows[0]) {
        assert FindsAt(c, rows, 0);
      } else {
        hide Malformed, IsSecurityTest;
        FirstProtectedIsFirst(c, rows[1..]);
        match FirstProtected(c, rows) {
          case Err(e) =>
            var i :| FailsAt(c, rows[1..], i) && e == Unclassifiable(rows[1..][i].id);
            ShiftReach(c, rows, i);
            assert FailsAt(c, rows, i + 1);
          case Ok(Some(id)) =>
            var i :| FindsAt(c, rows[1..], i) && rows[1..][i].id == id;
            ShiftReach(c, rows, i);
            assert FindsAt(c, rows, i + 1);
          case Ok(None) =>
            assert forall i :: 0 < i < |rows| ==> rows[i] == rows[1..][i - 1];
        }
      }
    }
  }

  lemma ShiftReach(c: Classifier, rows: seq<Row>, i: nat)
    requires i + 1 < |rows| && !IsSecurityTest(c, rows[0]) && !Malformed(c, rows[0])
    ensures ReachesRow(c, rows[1..], i) <==> ReachesRow(c, rows, i + 1)
  {
    hide Malformed, IsSecurityTest;
    assert forall j :: 0 <= j < i ==> rows[1..][j] == rows[j + 1];
    assert forall j :: 0 < j < i + 1 ==> rows[j] == rows[1..][j - 1];
  }

  function Ids(rows: seq<Row>): set<Id> {
    set i | 0 <= i < |rows| :: rows[i].id
  }

  function Window(rows: seq<Row>, retain: nat): set<Id> {
    Ids(rows[..if retain <= |rows| then retain else |rows|])
  }

  /** The newest `retain` tickets; a protected ticket outside them takes the place of the oldest. */
  function Kept(rows: seq<Row>, retain: nat, protected: Option<Id>): set<Id> {
    var window := Window(rows, retain);
    if protected.None? || protected.value in window then window
    else if window == {} then {protected.value}
    else if retain <= |rows| then window - {rows[retain - 1].id} + {protected.value}
    else window + {protected.value}
  }

  ghost predicate DistinctIds(rows: seq<Row>) {
    forall i, j :: 0 <= i < j < |rows| ==> rows[i].id != rows[j].id
  }

  lemma {:induction false} IdsCount(rows: seq<Row>)
    requires DistinctIds(rows)
    ensures |Ids(rows)| == |rows|
  {
    if rows == [] {
      assert Ids(rows) == {};
    } else {
      var n := |rows| - 1;
      IdsCount(rows[..n]);
      assert Ids(rows) == Ids(rows[..n]) + {rows[n].id};
      assert rows[n].id !in Ids(rows[..n]);
    }
  }

  /** How many are kept: exactly min(retain, n), except that protection keeps one when nothing was to be kept. */
  lemma KeptCount(rows: seq<Row>, retain: nat, protected: Option<Id>)
    requires DistinctIds(rows) && (protected.Some? ==> Listed(rows, protected.value))
    ensures |Kept(rows, retain, protected)|
            == if retain == 0 && protected.Some? then 1 else if retain <= |rows| then retain else |rows|
    ensures Kept(rows, retain, protected) <= Ids(rows)
  {
    var n := if retain <= |rows| then retain else |rows|;
    IdsCount(rows[..n]);
    if retain >= |rows| {
      assert rows[..n] == rows;
    }
    if n > 0 {
      assert rows[..n][n - 1].id in Window(rows, retain);
    } else {
      assert Window(rows, retain) == {};
    }
  }

  /** What is kept, in terms of the tickets: each kept one but the protected was updated later than each dropped
      one, or at the same time with a lesser id. */
  ghost predicate KeepsNewest(t: Tables, listed: set<Id>, kept: set<Id>, protected: Option<Id>) {
    && kept <= listed <= t.tickets.Keys
    && (protected.Some? ==> protected.value in kept)
    && forall k, d :: k in kept && Some(k) != protected && d in listed && d !in kept ==> IsNewer(t, k, d)
  }

  lemma ProtectedIsListed(c: Classifier, rows: seq<Row>)
    ensures FirstProtected(c, rows).Ok? && FirstProtected(c, rows).value.Some? ==>
              Listed(rows, FirstProtected(c, rows).value.value)
  {
    FirstProtectedIsFirst(c, rows);
  }

  /** The tables a prune leaves, one by one. */
  lemma KeptIsNewer(t: Tables, rows: seq<Row>, retain: nat, protected: Option<Id>, i: nat, j: nat)
    requires IsQuery(t, rows) && i < |rows| && j < |rows|
    requires protected.Some? ==> Listed(rows, protected.value)
    requires rows[i].id in Kept(rows, retain, protected) && rows[j].id !in Kept(rows, retain, protected)
    ensures Some(rows[i].id) != protected ==> IsNewer(t, rows[i].id, rows[j].id)
  {
    hide IsNewer, ComesBefore, Kept, Listed;
    if j < i {
      KeptIsAPrefixAndTheProtected(rows, retain, protected, j, i);
    } else {
      EarlierRowIsNewer(t, rows[i], rows[j]);
    }
  }

  lemma KeptAreNewest(c: Classifier, t: Tables, rows: seq<Row>, retain: nat)
    requires IsQuery(t, rows) && FirstProtected(c, rows).Ok?
    ensures var protected := FirstProtected(c, rows).value;
            KeepsNewest(t, Ids(rows), Kept(rows, retain, protected), protected)
  {
    hide IsNewer, ComesBefore, Kept, FirstProtected, Listed;
    var protected := FirstProtected(c, rows).value;
    ProtectedIsListed(c, rows);
    KeptCount(rows, retain, protected);
    var kept := Kept(rows, retain, protected);
    ProtectedIsKept(rows, retain, protected);
    forall k, d | k in kept && Some(k) != protected && d in Ids(rows) && d !in kept ensures IsNewer(t, k, d) {
      var i :| 0 <= i < |rows| && rows[i].id == k;
      var j :| 0 <= j < |rows| && rows[j].id == d;
      KeptIsNewer(t, rows, retain, protected, i, j);
    }
  }

  lemma ProtectedIsKept(rows: seq<Row>, retain: nat, protected: Option<Id>)
    ensures protected.Some? ==> protected.value in Kept(rows, retain, protected)
  {
    hide Window;
  }

  /** The signal of a ticket that is a security test, or whose classification cannot be read. */
  ghost predicate TestTicket(c: Classifier, t: Tables, k: Id) {
    && k in t.tickets && t.tickets[k].signal in t.signals
    && var s := t.signals[t.tickets[k].signal];
       s.kind == "host_modbus_write" && c(s.payload) == Some("security_test")
  }

  ghost predicate UnreadableTicket(c: Classifier, t: Tables, k: Id) {
    && k in t.tickets && t.tickets[k].signal in t.signals
    && var s := t.signals[t.tickets[k].signal];
       s.kind == "host_modbus_write" && c(s.payload) == None
  }

  /** What the search for the protected ticket finds, in terms of the tickets: the newest security test, unless a
      ticket that cannot be classified is newer still. */
  ghost predicate FindsNewestTest(c: Classifier, t: Tables, found: Result<Option<Id>, PruneError>) {
    match found
    case Ok(None) => forall k :: !TestTicket(c, t, k) && !UnreadableTicket(c, t, k)
    case Ok(Some(p)) =>
      && TestTicket(c, t, p)
      && forall k :: k != p && (TestTicket(c, t, k) || UnreadableTicket(c, t, k)) ==> IsNewer(t, p, k)
    case Err(Unclassifiable(p)) =>
      && UnreadableTicket(c, t, p)
      && forall k :: k != p && (TestTicket(c, t, k) || UnreadableTicket(c, t, k)) ==> IsNewer(t, p, k)
    case Err(_) => false
  }

  lemma RowOfTicket(c: Classifier, t: Tables, rows: seq<Row>, k: Id) returns (i: nat)
    requires IsQuery(t, rows) && (TestTicket(c, t, k) || UnreadableTicket(c, t, k))
    ensures i < |rows| && rows[i].id == k
    ensures IsSecurityTest(c, rows[i]) <==> TestTicket(c, t, k)
    ensures Malformed(c, rows[i]) <==> UnreadableTicket(c, t, k)
  {
    hide ComesBefore;
    assert Listed(rows, k);
    i :| 0 <= i < |rows| && rows[i].id == k;
  }

  lemma EndsTheSearch(c: Classifier, t: Tables, rows: seq<Row>, i: nat)
    requires IsQuery(t, rows) && ReachesRow(c, rows, i)
    ensures forall k :: k != rows[i].id && (TestTicket(c, t, k) || UnreadableTicket(c, t, k)) ==>
              rows[i].id in t.tickets && IsNewer(t, rows[i].id, k)
  {
    hide ComesBefore, IsNewer, Malformed, IsSecurityTest, TestTicket, UnreadableTicket;
    forall k | k != rows[i].id && (TestTicket(c, t, k) || UnreadableTicket(c, t, k))
      ensures rows[i].id in t.tickets && k in t.tickets && IsNewer(t, rows[i].id, k)
    {
      var j := RowOfTicket(c, t, rows, k);
      EarlierRowIsNewer(t, rows[i], rows[j]);
    }
  }

  lemma SearchFindsNewestTest(c: Classifier, t: Tables, rows: seq<Row>)
    requires IsQuery(t, rows)
    ensures FindsNewestTest(c, t, FirstProtected(c, rows))
  {
    hide ComesBefore, IsNewer, FirstProtected;
    FirstProtectedIsFirst(c, rows);
    match FirstProtected(c, rows)
    case Err(e) =>
      var i :| FailsAt(c, rows, i) && e == Unclassifiable(rows[i].id);
      EndsTheSearch(c, t, rows, i);
    case Ok(Some(id)) =>
      var i :| FindsAt(c, rows, i) && rows[i].id == id;
      EndsTheSearch(c, t, rows, i);
    case Ok(None) =>
      forall k ensures !TestTicket(c, t, k) && !UnreadableTicket(c, t, k) {
        if TestTicket(c, t, k) || UnreadableTicket(c, t, k) {
          var i := RowOfTicket(c, t, rows, k);
        }
      }
  }

  /** Who is kept: the protected ticket, and no ticket that comes after a dropped one but it. */
  lemma KeptIsAPrefixAndTheProtected(rows: seq<Row>, retain: nat, protected: Option<Id>, i: nat, j: nat)
    requires DistinctIds(rows) && (protected.Some? ==> Listed(rows, protected.value)) && i < j < |rows|
    ensures protected.Some? ==> protected.value in Kept(rows, retain, protected)
    ensures rows[i].id !in Kept(rows, retain, protected) && rows[j].id in Kept(rows, retain, protected) ==>
              protected == Some(rows[j].id)
  {
    var n := if retain <= |rows| then retain else |rows|;
    assert forall k :: 0 <= k < n ==> rows[..n][k] == rows[k];
  }

  datatype Plan = Plan(
    ticketIds: seq<Id>, kept: set<Id>, keptSignals: set<Id>, protected: Option<Id>,
    signalsToDelete: nat, occurrencesToDelete: nat)

  function TicketsToDelete(p: Plan): int {
    |p.ticketIds| - |p.kept|
  }

  function SignalsOf(rows: seq<Row>, kept: set<Id>): set<Id> {
    set i | 0 <= i < |rows| && rows[i].id in kept :: rows[i].ticket.signal
  }

  /** The occurrences of signals that are not kept. */
  function Dropped(occurrences: map<nat, Id>, signals: set<Id>): set<nat> {
    set k | k in occurrences && occurrences[k] !in signals
  }

  function RowIds(rows: seq<Row>): seq<Id> {
    if rows == [] then [] else RowIds(rows[..|rows| - 1]) + [rows[|rows| - 1].id]
  }

  /** What was planned from one answer of the query. */
  ghost predicate Planned(c: Classifier, t: Tables, retain: nat, rows: seq<Row>, p: Plan) {
    && IsQuery(t, rows)
    && FirstProtected(c, rows) == Ok(p.protected)
    && p.ticketIds == RowIds(rows)
    && p.kept == Kept(rows, retain, p.protected)
    && p.keptSignals == SignalsOf(rows, p.kept)
    && p.signalsToDelete == |t.signals.Keys - p.keptSignals|
    && p.occurrencesToDelete == |Dropped(t.occurrences, p.keptSignals)|
  }

  method FindProtected(c: Classifier, rows: seq<Row>) returns (protected: Result<Option<Id>, PruneError>)
    ensures protected == FirstProtected(c, rows)
  {
    hide IsSecurityTest, Malformed;
    assert rows[0..] == rows;
    for i := 0 to |rows|
      invariant FirstProtected(c, rows) == FirstProtected(c, rows[i..])
    {
      assert rows[i..][1..] == rows[i + 1..];
      if Malformed(c, rows[i]) {
        return Err(Unclassifiable(rows[i].id));
      }
      if IsSecurityTest(c, rows[i]) {
        return Ok(Some(rows[i].id));
      }
    }
    protected := Ok(None);
  }

  method CountDropped(occurrences: map<nat, Id>, signals: set<Id>) returns (n: nat)
    ensures n == |Dropped(occurrences, signals)|
  {
    n := 0;
    var left := occurrences.Keys;
    ghost var dropped: set<nat> := {};
    while left != {}
      invariant left <= occurrences.Keys
      invariant forall k :: k in dropped <==> k in occurrences && k !in left && occurrences[k] !in signals
      invariant n == |dropped|
    {
      var k :| k in left;
      if occurrences[k] !in signals {
        n, dropped := n + 1, dropped + {k};
      }
      left := left - {k};
    }
    assert dropped == Dropped(occurrences, signals);
  }

  method KeepNewest(rows: seq<Row>, retain: nat, protected: Option<Id>) returns (kept: set<Id>)
    ensures kept == Kept(rows, retain, protected)
  {
    hide Ids;
    kept := Window(rows, retain);
    if protected.Some? && protected.value !in kept {
      if kept != {} && retain <= |rows| {
        assert retain == 0 ==> kept == {} by { NothingInWindow(rows); }
        kept := kept - {rows[retain - 1].id};
      }
      kept := kept + {protected.value};
    }
  }

  lemma NothingInWindow(rows: seq<Row>)
    ensures Window(rows, 0) == {}
  {
  }

  lemma ErrorIsNotRetain(c: Classifier, rows: seq<Row>)
    ensures FirstProtected(c, rows).Err? ==> FirstProtected(c, rows).error != NegativeRetain
  {
    FirstProtectedIsFirst(c, rows);
  }

  /** The tickets that have their signal. */
  function ListedTickets(t: Tables): set<Id> {
    set k | k in t.tickets && t.tickets[k].signal in t.signals
  }

  lemma IdsAreListed(t: Tables, rows: seq<Row>)
    requires IsQuery(t, rows)
    ensures Ids(rows) == ListedTickets(t) && |rows| == |ListedTickets(t)|
  {
    hide ComesBefore;
    IdsCount(rows);
    forall k ensures k in Ids(rows) <==> k in ListedTickets(t) {
      if k in ListedTickets(t) {
        assert Listed(rows, k);
      }
    }
  }

  lemma KeptHowMany(c: Classifier, t: Tables, rows: seq<Row>, retain: nat)
    requires IsQuery(t, rows) && FirstProtected(c, rows).Ok?
    ensures var protected := FirstProtected(c, rows).value;
            |Kept(rows, retain, protected)|
            == if retain == 0 && protected.Some? then 1
               else if retain <= |ListedTickets(t)| then retain else |ListedTickets(t)|
  {
    hide ComesBefore, FirstProtected, Kept, ListedTickets;
    FirstProtectedIsFirst(c, rows);
    IdsAreListed(t, rows);
    KeptCount(rows, retain, FirstProtected(c, rows).value);
  }

  method PlanPrune(c: Classifier, t: Tables, retain: int) returns (r: Result<Plan, PruneError>, ghost rows: seq<Row>)
    ensures retain < 0 <==> r == Err(NegativeRetain)
    ensures retain >= 0 ==> IsQuery(t, rows)
                            && (r.Err? <==> FirstProtected(c, rows).Err?)
                            && (r.Err? ==> r.error == FirstProtected(c, rows).error)
    ensures r.Ok? ==> Planned(c, t, retain, rows, r.value)
    ensures retain >= 0 ==> FindsNewestTest(c, t, if r.Ok? then Ok(r.value.protected) else Err(r.error))
    ensures r.Ok? ==> KeepsNewest(t, ListedTickets(t), r.value.kept, r.value.protected)
    ensures r.Ok? ==>
              |r.value.kept| == if retain == 0 && r.value.protected.Some? then 1
                                else if retain <= |ListedTickets(t)| then retain else |ListedTickets(t)|
  {
    hide IsQuery, FirstProtected, IsSecurityTest, Malformed, KeepsNewest, FindsNewestTest;
    if retain < 0 {
      return Err(NegativeRetain), [];
    }
    var answer := Query(t);
    rows := answer;
    SearchFindsNewestTest(c, t, rows);
    IdsAreListed(t, rows);
    if FirstProtected(c, rows).Ok? {
      KeptAreNewest(c, t, rows, retain);
      KeptHowMany(c, t, rows, retain);
    }
    var protected := FindProtected(c, answer);
    if protected.Err? {
      ErrorIsNotRetain(c, answer);
      return Err(protected.error), answer;
    }
    var kept := KeepNewest(answer, retain, protected.value);
    hide Kept;
    var keptSignals := SignalsOf(answer, kept);
    var occurrences := CountDropped(t.occurrences, keptSignals);
    r := Ok(Plan(RowIds(answer), kept, keptSignals, protected.value, |t.signals.Keys - keptSignals|, occurrences));
  }
}
