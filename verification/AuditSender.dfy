/** The cursor-driven sender: reading verified records, delivering them, and moving the cursor. */
module AuditSender {
  import opened Wrappers
  import opened AuditSpool

  datatype Cursor = Cursor(offset: nat, previous: Hash)

  const ORIGIN := Cursor(0, ZERO_HASH)

  datatype Pending<+E> = Pending(end: nat, recordSha: Hash, envelope: Envelope<E>)

  // ----- reading the spool -----

  /** Up to `limit` complete, verified records from a position; a line without its newline ends the batch. */
  function Scan<E>(c: Crypto<E>, key: string, file: string, from: nat, previous: Hash, limit: int)
    : Result<seq<Pending<E>>, Flaw>
    decreases if limit > 0 then limit else 0
  {
    if limit <= 0 || from > |file| then Ok([])
    else
      var newline := NextNewline(file, from);
      if newline == |file| then Ok([])
      else
        var envelope := c.decode(file[from..newline]);
        if envelope.None? then Err(Unreadable)
        else
          var verified := VerifyEnvelope(c, envelope.value, key, Some(previous));
          if verified.Err? then Err(verified.error)
          else Prepend([Pending(newline + 1, verified.value, envelope.value)],
                       Scan(c, key, file, newline + 1, verified.value, limit - 1))
  }

  function Prepend<T, X>(first: seq<T>, rest: Result<seq<T>, X>): Result<seq<T>, X> {
    if rest.Ok? then Ok(first + rest.value) else rest
  }

  lemma PrependConcat<T, X>(a: seq<T>, b: seq<T>, rest: Result<seq<T>, X>)
    ensures Prepend(a, Prepend(b, rest)) == Prepend(a + b, rest)
  {
    if rest.Ok? {
      assert a + (b + rest.value) == (a + b) + rest.value;
    }
  }

  lemma PrependNothing<T, X>(rest: Result<seq<T>, X>)
    ensures Prepend([], rest) == rest
  {
    if rest.Ok? {
      assert [] + rest.value == rest.value;
    }
  }

  method PendingEnvelopes<E>(c: Crypto<E>, key: string, file: string, cursor: Cursor, limit: int)
    returns (r: Result<seq<Pending<E>>, Flaw>)
    ensures r == Scan(c, key, file, cursor.offset, cursor.previous, limit)
  {
    hide VerifyEnvelope;
    var records: seq<Pending<E>> := [];
    var from: nat, previous := cursor.offset, cursor.previous;
    PrependNothing(Scan(c, key, file, from, previous, limit));
    while |records| < limit
      invariant limit > 0 ==> |records| <= limit
      invariant limit <= 0 ==> records == []
      invariant Scan(c, key, file, cursor.offset, cursor.previous, limit)
                == Prepend(records, Scan(c, key, file, from, previous, limit - |records|))
    {
      if from > |file| {
        break;
      }
      var newline := NextNewline(file, from);
      if newline == |file| {
        break;
      }
      var envelope := c.decode(file[from..newline]);
      if envelope.None? {
        return Err(Unreadable);
      }
      var verified := VerifyEnvelope(c, envelope.value, key, Some(previous));
      if verified.Err? {
        return Err(verified.error);
      }
      ghost var one := [Pending(newline + 1, verified.value, envelope.value)];
      PrependConcat(records, one, Scan(c, key, file, newline + 1, verified.value, limit - |records| - 1));
      records := records + [Pending(newline + 1, verified.value, envelope.value)];
      from, previous := newline + 1, verified.value;
    }
    assert records + [] == records;
    r := Ok(records);
  }

  // ----- what is accepted of any file whatever -----

  /** One complete line from a position on: its newline is the first, and it is the record that signing the event
      with this key and this previous hash yields. */
  ghost predicate ReadsLine<E>(c: Crypto<E>, key: string, file: string, from: nat, previous: Hash, p: Pending<E>) {
    && from < p.end <= |file| && file[p.end - 1] == NEWLINE && NEWLINE !in file[from..p.end - 1]
    && c.decode(file[from..p.end - 1]) == Some(p.envelope)
    && p.envelope == BuildEnvelope(c, p.envelope.event, p.envelope.keyId, key, previous)
    && p.recordSha == p.envelope.recordSha
  }

  /** Where a cursor stands after these records. */
  function After<E>(from: Cursor, batch: seq<Pending<E>>): Cursor {
    if batch == [] then from else Cursor(batch[|batch| - 1].end, batch[|batch| - 1].envelope.recordSha)
  }

  /** Consecutive complete lines from a cursor on, each chained to the one before. */
  ghost predicate Reads<E>(c: Crypto<E>, key: string, file: string, from: Cursor, batch: seq<Pending<E>>) {
    forall i :: 0 <= i < |batch| ==>
      var at := After(from, batch[..i]); ReadsLine(c, key, file, at.offset, at.previous, batch[i])
  }

  predicate NoLine(file: string, from: nat) {
    from > |file| || NEWLINE !in file[from..]
  }

  /** The next complete line is none that signing with this key on this previous hash yields. */
  ghost predicate FailsNext<E>(c: Crypto<E>, key: string, file: string, at: Cursor, flaw: Flaw) {
    exists end ::
      && at.offset <= end < |file| && file[end] == NEWLINE && NEWLINE !in file[at.offset..end]
      && match c.decode(file[at.offset..end])
         case None => flaw == Unreadable
         case Some(e) =>
           && e != BuildEnvelope(c, e.event, e.keyId, key, at.previous)
           && VerifyEnvelope(c, e, key, Some(at.previous)) == Err(flaw)
  }

  lemma NewlineIsNext(file: string, from: nat, end: nat)
    requires from <= end < |file| && file[end] == NEWLINE && NEWLINE !in file[from..end]
    ensures NextNewline(file, from) == end
  {
    forall i | from <= i < end ensures file[i] != NEWLINE {
      assert file[i] == file[from..end][i - from];
    }
  }

  lemma NoLineMeans(file: string, from: nat)
    ensures NoLine(file, from) <==> from > |file| || NextNewline(file, from) == |file|
  {
    if from <= |file| {
      var n := NextNewline(file, from);
      forall i | from <= i < n ensures file[i] != NEWLINE {
      }
      if n < |file| {
        assert file[from..][n - from] == NEWLINE;
      }
    }
  }

  lemma ReadsCons<E>(c: Crypto<E>, key: string, file: string, from: Cursor, p: Pending<E>, rest: seq<Pending<E>>)
    requires ReadsLine(c, key, file, from.offset, from.previous, p)
    ensures Reads(c, key, file, from, [p] + rest) <==>
            Reads(c, key, file, Cursor(p.end, p.envelope.recordSha), rest)
    ensures After(from, [p] + rest) == After(Cursor(p.end, p.envelope.recordSha), rest)
  {
    hide ReadsLine;
    var all, next := [p] + rest, Cursor(p.end, p.envelope.recordSha);
    forall i | 0 <= i < |rest| ensures all[i + 1] == rest[i] && After(from, all[..i + 1]) == After(next, rest[..i]) {
      assert all[..i + 1] == [p] + rest[..i];
    }
    assert After(from, all[..0]) == from;
    if Reads(c, key, file, from, all) {
      forall i | 0 <= i < |rest|
        ensures var at := After(next, rest[..i]); ReadsLine(c, key, file, at.offset, at.previous, rest[i])
      {
        var at := After(from, all[..i + 1]);
        assert ReadsLine(c, key, file, at.offset, at.previous, all[i + 1]);
      }
    }
    if Reads(c, key, file, next, rest) {
      forall i | 0 <= i < |all|
        ensures var at := After(from, all[..i]); ReadsLine(c, key, file, at.offset, at.previous, all[i])
      {
        if i > 0 {
          var at := After(next, rest[..i - 1]);
          assert ReadsLine(c, key, file, at.offset, at.previous, rest[i - 1]);
        }
      }
    }
  }

  /** What the scan makes of its first line. */
  lemma FirstLineRead<E>(c: Crypto<E>, key: string, file: string, from: Cursor, limit: int)
    requires limit > 0 && !NoLine(file, from.offset)
    ensures var end := NextNewline(file, from.offset);
            && from.offset <= end < |file| && file[end] == NEWLINE && NEWLINE !in file[from.offset..end]
            && var e := c.decode(file[from.offset..end]);
            && (e.None? ==> Scan(c, key, file, from.offset, from.previous, limit) == Err(Unreadable))
            && (e.Some? ==>
                  var built := BuildEnvelope(c, e.value.event, e.value.keyId, key, from.previous);
                  var p := Pending(end + 1, e.value.recordSha, e.value);
                  && (e.value != built ==>
                        && VerifyEnvelope(c, e.value, key, Some(from.previous)).Err?
                        && Scan(c, key, file, from.offset, from.previous, limit)
                           == Err(VerifyEnvelope(c, e.value, key, Some(from.previous)).error))
                  && (e.value == built ==>
                        && ReadsLine(c, key, file, from.offset, from.previous, p)
                        && Scan(c, key, file, from.offset, from.previous, limit)
                           == Prepend([p], Scan(c, key, file, end + 1, e.value.recordSha, limit - 1))))
  {
    NoLineMeans(file, from.offset);
    var end := NextNewline(file, from.offset);
    var e := c.decode(file[from.offset..end]);
    if e.Some? {
      VerifyAcceptsExactlyBuilt(c, e.value, key, Some(from.previous));
    }
    hide VerifyEnvelope, BuildEnvelope, NoLine;
  }

  lemma OneLineOn<E>(c: Crypto<E>, key: string, file: string, from: Cursor, limit: int, p: Pending<E>)
    requires limit > 0 && ReadsLine(c, key, file, from.offset, from.previous, p)
    ensures Scan(c, key, file, from.offset, from.previous, limit)
            == Prepend([p], Scan(c, key, file, p.end, p.envelope.recordSha, limit - 1))
  {
    hide Scan, BuildEnvelope, VerifyEnvelope, NoLine;
    NewlineIsNext(file, from.offset, p.end - 1);
    NoLineMeans(file, from.offset);
    FirstLineRead(c, key, file, from, limit);
  }

  /** Reading goes on after any records already read. */
  lemma {:induction false} ScanGoesOn<E>(
    c: Crypto<E>, key: string, file: string, from: Cursor, limit: int, batch: seq<Pending<E>>)
    requires Reads(c, key, file, from, batch) && |batch| <= if limit > 0 then limit else 0
    ensures var at := After(from, batch);
            Scan(c, key, file, from.offset, from.previous, limit)
            == Prepend(batch, Scan(c, key, file, at.offset, at.previous, limit - |batch|))
    decreases |batch|
  {
    hide Scan, ReadsLine, Prepend;
    if batch == [] {
      PrependNothing(Scan(c, key, file, from.offset, from.previous, limit));
    } else {
      var p, rest := batch[0], batch[1..];
      assert batch == [p] + rest && After(from, batch[..0]) == from;
      assert ReadsLine(c, key, file, from.offset, from.previous, p);
      hide Reads, After;
      ReadsCons(c, key, file, from, p, rest);
      OneLineOn(c, key, file, from, limit, p);
      var next := Cursor(p.end, p.envelope.recordSha);
      ScanGoesOn(c, key, file, next, limit - 1, rest);
      var at := After(next, rest);
      PrependConcat([p], rest, Scan(c, key, file, at.offset, at.previous, limit - 1 - |rest|));
    }
  }

  /** How far the scan comes: the records it read, and whether it ended in a flaw. */
  lemma {:induction false} ScanComesTo<E>(c: Crypto<E>, key: string, file: string, from: Cursor, limit: int)
    returns (batch: seq<Pending<E>>)
    ensures Reads(c, key, file, from, batch) && |batch| <= if limit > 0 then limit else 0
    ensures match Scan(c, key, file, from.offset, from.previous, limit)
            case Ok(records) => records == batch && (|batch| < limit ==> NoLine(file, After(from, batch).offset))
            case Err(flaw) => |batch| < limit && FailsNext(c, key, file, After(from, batch), flaw)
    decreases if limit > 0 then limit else 0
  {
    hide BuildEnvelope, VerifyEnvelope, ReadsLine, Reads, FailsNext, After, Scan, NoLine;
    batch := [];
    NothingRead(c, key, file, from, limit);
    if limit > 0 && !NoLine(file, from.offset) {
      FirstLineRead(c, key, file, from, limit);
      var end := NextNewline(file, from.offset);
      var e := c.decode(file[from.offset..end]);
      if e.Some? && e.value == BuildEnvelope(c, e.value.event, e.value.keyId, key, from.previous) {
        var p := Pending(end + 1, e.value.recordSha, e.value);
        var rest := ScanComesTo(c, key, file, Cursor(end + 1, e.value.recordSha), limit - 1);
        ReadsCons(c, key, file, from, p, rest);
        batch := [p] + rest;
      } else {
        FailsHere(c, key, file, from, limit);
      }
    }
  }

  lemma NothingRead<E>(c: Crypto<E>, key: string, file: string, from: Cursor, limit: int)
    ensures Reads(c, key, file, from, []) && After<E>(from, []) == from
    ensures limit <= 0 || NoLine(file, from.offset) ==> Scan(c, key, file, from.offset, from.previous, limit) == Ok([])
  {
    hide VerifyEnvelope;
    NoLineMeans(file, from.offset);
  }

  lemma FailsHere<E>(c: Crypto<E>, key: string, file: string, from: Cursor, limit: int)
    requires limit > 0 && !NoLine(file, from.offset)
    requires var end := NextNewline(file, from.offset);
             from.offset <= end < |file| &&
             var e := c.decode(file[from.offset..end]);
             e.Some? ==> e.value != BuildEnvelope(c, e.value.event, e.value.keyId, key, from.previous)
    ensures var r := Scan(c, key, file, from.offset, from.previous, limit);
            r.Err? && FailsNext(c, key, file, from, r.error)
  {
    hide BuildEnvelope, VerifyEnvelope, Scan, NoLine;
    FirstLineRead(c, key, file, from, limit);
    var end := NextNewline(file, from.offset);
    assert file[end] == NEWLINE;
  }

  /** Of any file, from any cursor: the scan returns a batch exactly when it is the next complete lines, all
      genuine and chained, up to the limit or to the last complete line. */
  lemma ScanReturnsExactly<E>(
    c: Crypto<E>, key: string, file: string, from: Cursor, limit: int, batch: seq<Pending<E>>)
    ensures Scan(c, key, file, from.offset, from.previous, limit) == Ok(batch) <==>
            && Reads(c, key, file, from, batch) && |batch| <= (if limit > 0 then limit else 0)
            && (|batch| < limit ==> NoLine(file, After(from, batch).offset))
  {
    hide Reads, FailsNext, BuildEnvelope, VerifyEnvelope;
    var found := ScanComesTo(c, key, file, from, limit);
    if Reads(c, key, file, from, batch) && |batch| <= if limit > 0 then limit else 0 {
      ScanGoesOn(c, key, file, from, limit, batch);
      if |batch| < limit {
        NoLineMeans(file, After(from, batch).offset);
      }
      assert batch + [] == batch;
    }
  }

  /** And it fails exactly when, within the limit, the first line that is not genuine and chained has that flaw. */
  lemma ScanFailsExactly<E>(c: Crypto<E>, key: string, file: string, from: Cursor, limit: int, flaw: Flaw)
    ensures Scan(c, key, file, from.offset, from.previous, limit) == Err(flaw) <==>
            exists batch: seq<Pending<E>> ::
              Reads(c, key, file, from, batch) && |batch| < limit && FailsNext(c, key, file, After(from, batch), flaw)
  {
    hide Reads, Scan, FailsNext;
    var found := ScanComesTo(c, key, file, from, limit);
    if batch: seq<Pending<E>> :|
      Reads(c, key, file, from, batch) && |batch| < limit && FailsNext(c, key, file, After(from, batch), flaw)
    {
      ScanGoesOn(c, key, file, from, limit, batch);
      FailingScan(c, key, file, After(from, batch), limit - |batch|, flaw);
    }
  }

  lemma FailingScan<E>(c: Crypto<E>, key: string, file: string, at: Cursor, limit: int, flaw: Flaw)
    requires limit > 0 && FailsNext(c, key, file, at, flaw)
    ensures Scan(c, key, file, at.offset, at.previous, limit) == Err(flaw)
  {
    hide BuildEnvelope, VerifyEnvelope, Scan;
    var end: nat :| at.offset <= end < |file| && file[end] == NEWLINE && NEWLINE !in file[at.offset..end]
                    && match c.decode(file[at.offset..end])
                       case None => flaw == Unreadable
                       case Some(e) =>
                         && e != BuildEnvelope(c, e.event, e.keyId, key, at.previous)
                         && VerifyEnvelope(c, e, key, Some(at.previous)) == Err(flaw);
    NewlineIsNext(file, at.offset, end);
    NoLineMeans(file, at.offset);
    FirstLineRead(c, key, file, at, limit);
  }

  /** The cursor that stands after the first `k` records. */
  function At<E>(c: Crypto<E>, records: seq<Envelope<E>>, k: nat): Cursor
    requires k <= |records|
  {
    Cursor(|Text(c, records[..k])|, HeadHash(records[..k], ZERO_HASH))
  }

  /** The `m` records after the first `k`, with the position where each ends. */
  function Following<E>(c: Crypto<E>, records: seq<Envelope<E>>, k: nat, m: nat): seq<Pending<E>>
    requires k + m <= |records|
    decreases m
  {
    if m == 0 then []
    else [Pending(At(c, records, k + 1).offset, records[k].recordSha, records[k])]
         + Following(c, records, k + 1, m - 1)
  }

  /** One complete record: it is read, and it verifies against the hash before it. */
  lemma ReadOne<E(!new)>(
    c: Crypto<E>, key: string, records: seq<Envelope<E>>, partial: string, k: nat)
    requires Readable(c, key) && Chained(c, key, records, ZERO_HASH) && k < |records|
    ensures var file, from := Text(c, records) + partial, At(c, records, k).offset;
            var newline := NextNewline(file, from);
            && from <= newline < |file|
            && newline + 1 == At(c, records, k + 1).offset
            && c.decode(file[from..newline]) == Some(records[k])
            && VerifyEnvelope(c, records[k], key, Some(At(c, records, k).previous)) == Ok(records[k].recordSha)
            && At(c, records, k + 1).previous == records[k].recordSha
  {
    hide VerifyEnvelope, Text, NextNewline;
    ChainReadsBack(c, key, records, ZERO_HASH);
    assert ReadsBack(c, records[k]);
    hide Readable;
    ReadLine(c, records, partial, k);
    hide Chained;
    VerifyAcceptsExactlyBuilt(c, records[k], key, Some(HeadHash(records[..k], ZERO_HASH)));
  }

  lemma NoMoreLines<E(!new)>(c: Crypto<E>, records: seq<Envelope<E>>, partial: string)
    requires NEWLINE !in partial
    ensures var file := Text(c, records) + partial;
            NextNewline(file, |Text(c, records)|) == |file|
  {
    var file, from := Text(c, records) + partial, |Text(c, records)|;
    forall i | from <= i < |file|
      ensures file[i] != NEWLINE
    {
      assert file[i] == partial[i - from];
    }
  }

  lemma ScanOne<E>(c: Crypto<E>, key: string, file: string, at: Cursor, e: Envelope<E>, limit: nat)
    requires limit > 0 && at.offset <= |file|
    requires var newline := NextNewline(file, at.offset);
             newline < |file| && c.decode(file[at.offset..newline]) == Some(e)
    requires VerifyEnvelope(c, e, key, Some(at.previous)) == Ok(e.recordSha)
    ensures var newline := NextNewline(file, at.offset);
            Scan(c, key, file, at.offset, at.previous, limit)
            == Prepend([Pending(newline + 1, e.recordSha, e)], Scan(c, key, file, newline + 1, e.recordSha, limit - 1))
  {
    hide VerifyEnvelope, NextNewline;
  }

  /** From any cursor an appended spool verifies and yields exactly the next min(limit, remaining) records,
      whatever part of the next line is already visible. */
  lemma {:induction false} ScanYieldsNextRecords<E(!new)>(
    c: Crypto<E>, key: string, records: seq<Envelope<E>>, partial: string, k: nat, limit: nat)
    requires Readable(c, key) && Chained(c, key, records, ZERO_HASH) && NEWLINE !in partial && k <= |records|
    ensures var m := if limit <= |records| - k then limit else |records| - k;
            Scan(c, key, Text(c, records) + partial, At(c, records, k).offset, At(c, records, k).previous, limit)
            == Ok(Following(c, records, k, m))
    decreases limit
  {
    hide VerifyEnvelope, Chained, Text, Scan, At, NextNewline, Readable;
    if limit == 0 || k == |records| {
      ScanAtEnd(c, key, records, partial, k, limit);
    } else {
      ReadOne(c, key, records, partial, k);
      ScanOne(c, key, Text(c, records) + partial, At(c, records, k), records[k], limit);
      ScanYieldsNextRecords(c, key, records, partial, k + 1, limit - 1);
    }
  }

  lemma ScanAtEnd<E(!new)>(
    c: Crypto<E>, key: string, records: seq<Envelope<E>>, partial: string, k: nat, limit: nat)
    requires NEWLINE !in partial && k <= |records| && (limit == 0 || k == |records|)
    ensures Scan(c, key, Text(c, records) + partial, At(c, records, k).offset, At(c, records, k).previous, limit)
            == Ok([])
  {
    hide Text, NextNewline;
    if limit > 0 {
      assert records[..k] == records;
      NoMoreLines(c, records, partial);
    }
  }

  // ----- sending -----

  /** What one external effect did, and what was reported. */
  datatype Fate = Done | DoneButFailed | NotDone

  /** A delivery, identified by the position where its record ends. */
  datatype Delivery<+E> = Delivery(end: nat, event: E)

  /** The cursor in memory, the cursor file, and every delivery that reached the receiver. */
  datatype Sender<+E> = Sender(memory: Cursor, disk: Option<Cursor>, log: seq<Delivery<E>>)

  datatype Fates = Fates(deliver: Fate, save: Fate)

  function FateAt(fates: seq<Fates>, i: nat): Fates {
    if i < |fates| then fates[i] else Fates(Done, Done)
  }

  /** Delivers and saves record by record; the first failure raises and ends the call. */
  function SendAll<E>(s: Sender<E>, batch: seq<Pending<E>>, fates: seq<Fates>, i: nat): (Sender<E>, bool)
    requires i <= |batch|
    decreases |batch| - i
  {
    if i == |batch| then (s, true)
    else
      var f, next := FateAt(fates, i), Cursor(batch[i].end, batch[i].recordSha);
      if f.deliver.NotDone? then (s, false)
      else
        var sent := s.(log := s.log + [Delivery(batch[i].end, batch[i].envelope.event)]);
        if f.deliver.DoneButFailed? then (sent, false)
        else if f.save.NotDone? then (sent, false)
        else if f.save.DoneButFailed? then (sent.(disk := Some(next)), false)
        else SendAll(sent.(disk := Some(next), memory := next), batch, fates, i + 1)
  }

  /** What delivering some records adds to the log. */
  function Carried<E>(batch: seq<Pending<E>>): seq<Delivery<E>> {
    seq(|batch|, i requires 0 <= i < |batch| => Delivery(batch[i].end, batch[i].envelope.event))
  }

  /** A send delivers a beginning of its batch, and the cursor in memory stands after all of it but perhaps the last. */
  lemma {:induction false} SendAllDelivers<E>(s: Sender<E>, batch: seq<Pending<E>>, fates: seq<Fates>, i: nat)
    returns (k: nat, d: nat)
    requires i <= |batch|
    ensures i <= k <= d <= |batch| && d <= k + 1
    ensures var (s', ok) := SendAll(s, batch, fates, i);
            && s'.log == s.log + Carried(batch[i..d])
            && s'.memory == (if k == i then s.memory else Cursor(batch[k - 1].end, batch[k - 1].recordSha))
            && (ok ==> k == d == |batch|)
    decreases |batch| - i
  {
    var f := FateAt(fates, i);
    k, d := i, i;
    if i < |batch| && !f.deliver.NotDone? {
      var next := Cursor(batch[i].end, batch[i].recordSha);
      var one := [Delivery(batch[i].end, batch[i].envelope.event)];
      d := i + 1;
      assert Carried(batch[i..i + 1]) == one;
      if f == Fates(Done, Done) {
        k, d := SendAllDelivers(s.(log := s.log + one, disk := Some(next), memory := next), batch, fates, i + 1);
        assert Carried(batch[i..d]) == one + Carried(batch[i + 1..d]);
        assert s.log + one + Carried(batch[i + 1..d]) == s.log + (one + Carried(batch[i + 1..d]));
      }
    }
  }

  lemma ReadsPrefix<E>(c: Crypto<E>, key: string, file: string, from: Cursor, batch: seq<Pending<E>>, n: nat)
    requires Reads(c, key, file, from, batch) && n <= |batch|
    ensures Reads(c, key, file, from, batch[..n])
    ensures n > 0 ==> After(from, batch[..n]) == Cursor(batch[n - 1].end, batch[n - 1].recordSha)
  {
    hide ReadsLine;
    forall i | 0 <= i < n
      ensures var at := After(from, batch[..n][..i]); ReadsLine(c, key, file, at.offset, at.previous, batch[..n][i])
    {
      assert batch[..n][..i] == batch[..i];
    }
    if n > 0 {
      ReadsShas(c, key, file, from, batch, n - 1);
    }
  }

  lemma ReadsShas<E>(c: Crypto<E>, key: string, file: string, from: Cursor, batch: seq<Pending<E>>, i: nat)
    requires Reads(c, key, file, from, batch) && i < |batch|
    ensures batch[i].recordSha == batch[i].envelope.recordSha
  {
    assert ReadsLine(c, key, file, After(from, batch[..i]).offset, After(from, batch[..i]).previous, batch[i]);
  }

  /** What a send adds to the log is genuine: consecutive complete lines of the file from its cursor on, each what
      signing yields. Its cursor then stands after these, or before the last of them. */
  ghost predicate SendsGenuine<E>(
    c: Crypto<E>, key: string, file: string, was: Sender<E>, now: Sender<E>, limit: int, batch: seq<Pending<E>>)
  {
    && Reads(c, key, file, was.memory, batch) && |batch| <= (if limit > 0 then limit else 0)
    && now.log == was.log + Carried(batch)
    && (now.memory == After(was.memory, batch)
        || (batch != [] && now.memory == After(was.memory, batch[..|batch| - 1])))
  }

  lemma OnlyGenuineIsSent<E>(
    c: Crypto<E>, key: string, file: string, s: Sender<E>, batch: seq<Pending<E>>, limit: int, fates: seq<Fates>)
    returns (sent: seq<Pending<E>>)
    requires Scan(c, key, file, s.memory.offset, s.memory.previous, limit) == Ok(batch)
    ensures SendsGenuine(c, key, file, s, SendAll(s, batch, fates, 0).0, limit, sent)
  {
    hide Scan, Reads, SendAll;
    ScanReturnsExactly(c, key, file, s.memory, limit, batch);
    var k, d := SendAllDelivers(s, batch, fates, 0);
    assert batch[0..d] == batch[..d];
    ReadsPrefix(c, key, file, s.memory, batch, k);
    ReadsPrefix(c, key, file, s.memory, batch, d);
    sent := batch[..d];
    if k < d {
      assert sent[..d - 1] == batch[..k];
    }
    if k == 0 {
      assert After(s.memory, batch[..0]) == s.memory;
    }
  }

  lemma NothingIsGenuine<E>(c: Crypto<E>, key: string, file: string, s: Sender<E>, limit: int)
    ensures SendsGenuine(c, key, file, s, s, limit, [])
  {
    assert s.log + Carried<E>([]) == s.log;
  }

  class EventSender<E(!new)> {
    const crypto: Crypto<E>
    const key: string
    var cursor: Cursor
    var disk: Option<Cursor>
    ghost var log: seq<Delivery<E>>

    constructor (crypto: Crypto<E>, key: string, disk: Option<Cursor>)
      ensures this.crypto == crypto && this.key == key && this.disk == disk && log == []
      ensures cursor == if disk.Some? then disk.value else ORIGIN
    {
      this.crypto, this.key, this.disk, this.log := crypto, key, disk, [];
      this.cursor := if disk.Some? then disk.value else ORIGIN;
    }

    ghost function State(): Sender<E>
      reads this
    {
      Sender(cursor, disk, log)
    }

    method Save(offset: nat, recordSha: Hash, fate: Fate) returns (ok: bool)
      modifies this
      ensures ok == fate.Done? && log == old(log)
      ensures disk == if fate.NotDone? then old(disk) else Some(Cursor(offset, recordSha))
      ensures cursor == if fate.Done? then Cursor(offset, recordSha) else old(cursor)
    {
      if !fate.NotDone? {
        disk := Some(Cursor(offset, recordSha));
      }
      if fate.Done? {
        cursor := Cursor(offset, recordSha);
      }
      ok := fate.Done?;
    }

    method SendPending(file: string, limit: int, fates: seq<Fates>) returns (sent: Result<nat, Flaw>, raised: bool)
      modifies this
      ensures var batch := Scan(crypto, key, file, old(cursor).offset, old(cursor).previous, limit);
              if batch.Err? then sent == Err(batch.error) && State() == old(State())
              else (State(), !raised) == SendAll(old(State()), batch.value, fates, 0)
                   && (!raised ==> sent == Ok(|batch.value|))
      ensures exists batch :: SendsGenuine(crypto, key, file, old(State()), State(), limit, batch)
    {
      hide Scan, SendsGenuine;
      ghost var was := State();
      var batch := PendingEnvelopes(crypto, key, file, cursor, limit);
      if batch.Err? {
        NothingIsGenuine(crypto, key, file, was, limit);
        return Err(batch.error), true;
      }
      var records := batch.value;
      ghost var genuine := OnlyGenuineIsSent(crypto, key, file, was, records, limit, fates);
      for i := 0 to |records|
        invariant SendAll(old(State()), records, fates, 0) == SendAll(State(), records, fates, i)
      {
        var f := FateAt(fates, i);
        if f.deliver.NotDone? {
          return Ok(i), true;
        }
        log := log + [Delivery(records[i].end, records[i].envelope.event)];
        if f.deliver.DoneButFailed? {
          return Ok(i), true;
        }
        var saved := Save(records[i].end, records[i].recordSha, f.save);
        if !saved {
          return Ok(i), true;
        }
      }
      return Ok(|records|), false;
    }
  }

  // ----- runs of appends, torn views, sends and restarts -----

  datatype Pipe<+E> = Pipe(records: seq<Envelope<E>>, partial: string, sender: Sender<E>)

  datatype Action<+E> =
    | Append(event: E, keyId: string)
    | Tear(partial: string)
    | Send(limit: nat, fates: seq<Fates>)
    | Restart

  function Persisted<E>(s: Sender<E>): Cursor {
    if s.disk.Some? then s.disk.value else ORIGIN
  }

  function Act<E>(c: Crypto<E>, key: string, p: Pipe<E>, a: Action<E>): Pipe<E> {
    match a
    case Append(event, keyId) =>
      p.(records := p.records + [BuildEnvelope(c, event, keyId, key, HeadHash(p.records, ZERO_HASH))], partial := "")
    case Tear(partial) => p.(partial := partial)
    case Send(limit, fates) =>
      var at := p.sender.memory;
      var batch := Scan(c, key, Text(c, p.records) + p.partial, at.offset, at.previous, limit);
      if batch.Err? then p else p.(sender := SendAll(p.sender, batch.value, fates, 0).0)
    case Restart => p.(sender := p.sender.(memory := Persisted(p.sender)))
  }

  function Run<E>(c: Crypto<E>, key: string, actions: seq<Action<E>>): Pipe<E> {
    if actions == [] then Pipe([], "", Sender(ORIGIN, None, []))
    else Act(c, key, Run(c, key, actions[..|actions| - 1]), actions[|actions| - 1])
  }

  /** Only the newline completes a line: what is visible before it holds none. */
  ghost predicate LineByLine<E>(actions: seq<Action<E>>) {
    forall i :: 0 <= i < |actions| && actions[i].Tear? ==> NEWLINE !in actions[i].partial
  }

  /** The log without adjacent repeats. */
  function Collapse<T(==)>(log: seq<T>): seq<T> {
    if |log| <= 1 then log
    else
      var n := |log| - 1;
      if log[n] == log[n - 1] then Collapse(log[..n]) else Collapse(log[..n]) + [log[n]]
  }

  lemma CollapseSnoc<T>(log: seq<T>, x: T)
    ensures Collapse(log + [x]) == if log != [] && log[|log| - 1] == x then Collapse(log) else Collapse(log) + [x]
  {
    assert (log + [x])[..|log|] == log;
  }

  /** The delivery of record `m`. */
  function DeliveryOf<E>(c: Crypto<E>, records: seq<Envelope<E>>, m: nat): Delivery<E>
    requires m < |records|
  {
    Delivery(At(c, records, m + 1).offset, records[m].event)
  }

  /** The deliveries of the first `d` records, in order. */
  function Deliveries<E>(c: Crypto<E>, records: seq<Envelope<E>>, d: nat): seq<Delivery<E>>
    requires d <= |records|
  {
    if d == 0 then []
    else Deliveries(c, records, d - 1) + [DeliveryOf(c, records, d - 1)]
  }

  /** Memory stands after `m` records, the file after `q`, and the first `d` records were delivered. */
  ghost predicate Stands<E>(c: Crypto<E>, records: seq<Envelope<E>>, s: Sender<E>, m: nat, q: nat, d: nat) {
    && m <= q <= d <= m + 1 && d <= |records|
    && s.memory == At(c, records, m)
    && Persisted(s) == At(c, records, q)
    && Collapse(s.log) == Deliveries(c, records, d)
    && (s.log != [] ==> d > 0 && s.log[|s.log| - 1] == DeliveryOf(c, records, d - 1))
    && (s.log == [] ==> d == 0)
  }

  ghost predicate Inv<E(!new)>(c: Crypto<E>, key: string, p: Pipe<E>) {
    && Chained(c, key, p.records, ZERO_HASH) && NEWLINE !in p.partial
    && exists m: nat, q: nat, d: nat :: Stands(c, p.records, p.sender, m, q, d)
  }

  lemma OffsetsGrow<E>(c: Crypto<E>, records: seq<Envelope<E>>, k: nat)
    requires k < |records|
    ensures At(c, records, k).offset < At(c, records, k + 1).offset
  {
    assert records[..k + 1] == records[..k] + [records[k]];
    TextSnoc(c, records[..k], records[k]);
  }

  lemma HeadAfter<E>(c: Crypto<E>, records: seq<Envelope<E>>, k: nat)
    requires k < |records|
    ensures At(c, records, k + 1) == Cursor(At(c, records, k + 1).offset, records[k].recordSha)
  {
  }

  lemma OtherDelivery<E>(c: Crypto<E>, records: seq<Envelope<E>>, m: nat)
    requires 0 < m < |records|
    ensures DeliveryOf(c, records, m - 1) != DeliveryOf(c, records, m)
  {
    OffsetsGrow(c, records, m);
    hide At;
  }

  /** Delivering record `m` again, or for the first time. */
  lemma DeliverOne<E>(c: Crypto<E>, records: seq<Envelope<E>>, s: Sender<E>, m: nat, q: nat, d: nat)
    requires Stands(c, records, s, m, q, d) && m < |records|
    ensures Stands(c, records, s.(log := s.log + [DeliveryOf(c, records, m)]), m, q, m + 1)
  {
    var x := DeliveryOf(c, records, m);
    CollapseSnoc(s.log, x);
    if d == m && d > 0 {
      OtherDelivery(c, records, m);
    }
    assert Deliveries(c, records, m + 1) == Deliveries(c, records, m) + [x];
    hide At, Collapse, Deliveries;
  }

  lemma {:induction false} FollowingAt<E>(c: Crypto<E>, records: seq<Envelope<E>>, k: nat, n: nat, i: nat)
    requires k + n <= |records| && i < n
    ensures |Following(c, records, k, n)| == n
    ensures Following(c, records, k, n)[i]
            == Pending(At(c, records, k + i + 1).offset, records[k + i].recordSha, records[k + i])
    decreases n
  {
    hide At;
    if i > 0 {
      FollowingAt(c, records, k + 1, n - 1, i - 1);
    } else if n > 1 {
      FollowingAt(c, records, k + 1, n - 1, 0);
    }
  }

  /** A send keeps cursors on record boundaries and the log a repeated prefix, wherever it fails. */
  lemma {:induction false} SendKeepsPlace<E>(
    c: Crypto<E>, records: seq<Envelope<E>>, s: Sender<E>, k: nat, n: nat, i: nat, fates: seq<Fates>, q: nat, d: nat)
    returns (m': nat, q': nat, d': nat)
    requires k + n <= |records| && i <= n && |Following(c, records, k, n)| == n
    requires Stands(c, records, s, k + i, q, d)
    ensures var (s', ok) := SendAll(s, Following(c, records, k, n), fates, i);
            && Stands(c, records, s', m', q', d')
            && (ok ==> m' == k + n && if i < n then q' == d' == m' else q' == q && d' == d)
    decreases n - i
  {
    hide At, Collapse, Deliveries, Following;
    var batch := Following(c, records, k, n);
    if i == n {
      return k + i, q, d;
    }
    var m, f := k + i, FateAt(fates, i);
    FollowingAt(c, records, k, n, i);
    HeadAfter(c, records, m);
    DeliverOne(c, records, s, m, q, d);
    var sent := s.(log := s.log + [Delivery(batch[i].end, batch[i].envelope.event)]);
    var next := Cursor(batch[i].end, batch[i].recordSha);
    if f.deliver.NotDone? {
      return m, q, d;
    } else if f.deliver.DoneButFailed? || f.save.NotDone? {
      return m, q, m + 1;
    } else if f.save.DoneButFailed? {
      assert Stands(c, records, sent.(disk := Some(next)), m, m + 1, m + 1);
      return m, m + 1, m + 1;
    } else {
      var moved := sent.(disk := Some(next), memory := next);
      assert Stands(c, records, moved, m + 1, m + 1, m + 1);
      m', q', d' := SendKeepsPlace(c, records, moved, k, n, i + 1, fates, m + 1, m + 1);
    }
  }

  lemma {:induction false} DeliveriesPrefix<E>(c: Crypto<E>, a: seq<Envelope<E>>, e: Envelope<E>, d: nat)
    requires d <= |a|
    ensures Deliveries(c, a + [e], d) == Deliveries(c, a, d) && At(c, a + [e], d) == At(c, a, d)
  {
    assert (a + [e])[..d] == a[..d];
    if d > 0 {
      DeliveriesPrefix(c, a, e, d - 1);
    }
  }

  lemma AppendKeepsPlace<E>(
    c: Crypto<E>, records: seq<Envelope<E>>, e: Envelope<E>, s: Sender<E>, m: nat, q: nat, d: nat)
    requires Stands(c, records, s, m, q, d)
    ensures Stands(c, records + [e], s, m, q, d)
  {
    hide At, Collapse, Deliveries;
    DeliveriesPrefix(c, records, e, m);
    DeliveriesPrefix(c, records, e, q);
    DeliveriesPrefix(c, records, e, d);
  }

  lemma ActKeepsInv<E(!new)>(c: Crypto<E>, key: string, p: Pipe<E>, a: Action<E>)
    requires Readable(c, key) && Inv(c, key, p) && (a.Tear? ==> NEWLINE !in a.partial)
    ensures Inv(c, key, Act(c, key, p, a))
  {
    hide At, Collapse, Deliveries, Chained, VerifyEnvelope, Readable, Stands;
    var m: nat, q: nat, d: nat :| Stands(c, p.records, p.sender, m, q, d);
    match a
    case Append(event, keyId) =>
      var e := BuildEnvelope(c, event, keyId, key, HeadHash(p.records, ZERO_HASH));
      VerifyAcceptsExactlyBuilt(c, e, key, Some(HeadHash(p.records, ZERO_HASH)));
      ChainedSnoc(c, key, p.records, ZERO_HASH, e);
      AppendKeepsPlace(c, p.records, e, p.sender, m, q, d);
    case Tear(_) =>
    case Send(limit, fates) =>
      var m', q', d' := SendStep(c, key, p, limit, fates, m, q, d);
    case Restart =>
      RestartKeepsPlace(c, p.records, p.sender, m, q, d);
  }

  lemma RestartKeepsPlace<E>(c: Crypto<E>, records: seq<Envelope<E>>, s: Sender<E>, m: nat, q: nat, d: nat)
    requires Stands(c, records, s, m, q, d)
    ensures Stands(c, records, s.(memory := Persisted(s)), q, q, d)
  {
    hide At, Collapse, Deliveries;
  }

  lemma SendStep<E(!new)>(
    c: Crypto<E>, key: string, p: Pipe<E>, limit: nat, fates: seq<Fates>, m: nat, q: nat, d: nat)
    returns (m': nat, q': nat, d': nat)
    requires Readable(c, key) && Chained(c, key, p.records, ZERO_HASH) && NEWLINE !in p.partial
    requires Stands(c, p.records, p.sender, m, q, d)
    ensures var p' := Act(c, key, p, Send(limit, fates));
            && p' == p.(sender := p'.sender) && Stands(c, p.records, p'.sender, m', q', d')
            && (fates == [] && limit >= |p.records| - m && m < |p.records| ==> m' == q' == d' == |p.records|)
  {
    hide Scan, At, Collapse, Deliveries, Chained, Readable, Following;
    var n := if limit <= |p.records| - m then limit else |p.records| - m;
    ScanYieldsNextRecords(c, key, p.records, p.partial, m, limit);
    if n > 0 {
      FollowingAt(c, p.records, m, n, 0);
    } else {
      FollowingNone(c, p.records, m);
    }
    m', q', d' := SendKeepsPlace(c, p.records, p.sender, m, n, 0, fates, q, d);
    NoFaultSucceeds(p.sender, Following(c, p.records, m, n), 0);
  }

  lemma FollowingNone<E>(c: Crypto<E>, records: seq<Envelope<E>>, k: nat)
    requires k <= |records|
    ensures Following(c, records, k, 0) == []
  {
  }

  lemma {:induction false} NoFaultSucceeds<E>(s: Sender<E>, batch: seq<Pending<E>>, i: nat)
    requires i <= |batch|
    ensures SendAll(s, batch, [], i).1
    decreases |batch| - i
  {
    if i < |batch| {
      var next := Cursor(batch[i].end, batch[i].recordSha);
      var log := s.log + [Delivery(batch[i].end, batch[i].envelope.event)];
      NoFaultSucceeds(Sender(next, Some(next), log), batch, i + 1);
    }
  }

  /** Over every interleaving of appends, torn views, failing sends and restarts: the cursor file is a
      record boundary carrying the hash before it, and the deliveries without adjacent repeats are the
      records up to it, or one more. */
  lemma {:induction false} CursorAndLogStayInStep<E(!new)>(c: Crypto<E>, key: string, actions: seq<Action<E>>)
    returns (q: nat, d: nat)
    requires Readable(c, key) && LineByLine(actions)
    ensures Inv(c, key, Run(c, key, actions))
    ensures var p := Run(c, key, actions);
            && q <= d <= q + 1 && d <= |p.records|
            && Persisted(p.sender) == At(c, p.records, q)
            && Collapse(p.sender.log) == Deliveries(c, p.records, d)
  {
    hide At, Collapse, Deliveries, Chained, Readable, Act;
    if actions == [] {
      EmptyStands(c);
      assert Stands(c, [], Sender(ORIGIN, None, []), 0, 0, 0);
      assert Chained(c, key, [], ZERO_HASH) by { EmptyChained(c, key); }
    } else {
      var n := |actions| - 1;
      assert forall i :: 0 <= i < n ==> actions[..n][i] == actions[i];
      var _, _ := CursorAndLogStayInStep(c, key, actions[..n]);
      ActKeepsInv(c, key, Run(c, key, actions[..n]), actions[n]);
    }
    var p := Run(c, key, actions);
    var m: nat, q0: nat, d0: nat :| Stands(c, p.records, p.sender, m, q0, d0);
    return q0, d0;
  }

  lemma EmptyStands<E>(c: Crypto<E>)
    ensures Stands(c, [], Sender(ORIGIN, None, []), 0, 0, 0)
  {
  }

  lemma EmptyChained<E(!new)>(c: Crypto<E>, key: string)
    ensures Chained(c, key, [], ZERO_HASH)
  {
  }

  /** The sender reads no complete record after its cursor. */
  predicate NothingToSend<E(==)>(c: Crypto<E>, key: string, p: Pipe<E>, limit: nat) {
    Scan(c, key, Text(c, p.records) + p.partial, p.sender.memory.offset, p.sender.memory.previous, limit) == Ok([])
  }

  /** A send that succeeds without sending anything leaves nothing behind: the cursor file stands at
      the end of the spool and every record was delivered. */
  lemma {:induction false} ZeroSentMeansAllDelivered<E(!new)>(
    c: Crypto<E>, key: string, actions: seq<Action<E>>, limit: nat)
    requires Readable(c, key) && LineByLine(actions) && limit > 0
    requires var p := Run(c, key, actions);
             NothingToSend(c, key, p, limit)
    ensures var p := Run(c, key, actions);
            && Persisted(p.sender) == At(c, p.records, |p.records|)
            && Collapse(p.sender.log) == Deliveries(c, p.records, |p.records|)
  {
    hide At, Collapse, Deliveries, Chained, Readable, Act, Scan;
    var p := Run(c, key, actions);
    var _, _ := CursorAndLogStayInStep(c, key, actions);
    NothingPending(c, key, p, limit);
  }

  lemma NothingPending<E(!new)>(c: Crypto<E>, key: string, p: Pipe<E>, limit: nat)
    requires Readable(c, key) && Inv(c, key, p) && limit > 0
    requires NothingToSend(c, key, p, limit)
    ensures Persisted(p.sender) == At(c, p.records, |p.records|)
    ensures Collapse(p.sender.log) == Deliveries(c, p.records, |p.records|)
  {
    hide At, Collapse, Deliveries, Chained, Readable, Scan, Following;
    var m: nat, q: nat, d: nat :| Stands(c, p.records, p.sender, m, q, d);
    ScanYieldsNextRecords(c, key, p.records, p.partial, m, limit);
    var n := if limit <= |p.records| - m then limit else |p.records| - m;
    if n > 0 {
      FollowingAt(c, p.records, m, n, 0);
    }
  }

  /** Without a failure everything is delivered and saved. */
  lemma {:induction false} AllAreSent<E>(s: Sender<E>, batch: seq<Pending<E>>, i: nat)
    requires i <= |batch|
    ensures var (s', ok) := SendAll(s, batch, [], i);
            && ok
            && (i < |batch| ==>
                  var last := batch[|batch| - 1];
                  s'.memory == Cursor(last.end, last.recordSha) && s'.disk == Some(s'.memory))
            && (i == |batch| ==> s' == s)
    decreases |batch| - i
  {
    if i < |batch| {
      var next := Cursor(batch[i].end, batch[i].recordSha);
      var one := Delivery(batch[i].end, batch[i].envelope.event);
      AllAreSent(s.(log := s.log + [one], disk := Some(next), memory := next), batch, i + 1);
    }
  }

  /** From wherever the sender stands, one send without a failure and without a bound in its way leaves nothing to
      send, whatever part of the next line is visible. */
  lemma FaultlessSendDrains<E(!new)>(c: Crypto<E>, key: string, p: Pipe<E>, limit: nat, later: nat)
    requires Readable(c, key) && Inv(c, key, p) && limit >= |p.records|
    ensures var p' := Act(c, key, p, Send(limit, []));
            p'.records == p.records && p'.partial == p.partial && NothingToSend(c, key, p', later)
  {
    hide At, Collapse, Deliveries, Chained, Readable, Scan, Following, SendAll;
    var m: nat, q: nat, d: nat :| Stands(c, p.records, p.sender, m, q, d);
    var n := |p.records| - m;
    ScanYieldsNextRecords(c, key, p.records, p.partial, m, limit);
    var batch := Following(c, p.records, m, n);
    AllAreSent(p.sender, batch, 0);
    FollowingLength(c, p.records, m, n);
    if n > 0 {
      FollowingAt(c, p.records, m, n, n - 1);
      HeadAfter(c, p.records, |p.records| - 1);
    }
    ScanYieldsNextRecords(c, key, p.records, p.partial, |p.records|, later);
    assert Following(c, p.records, |p.records|, 0) == [] by { FollowingNothing(c, p.records); }
  }

  lemma FollowingNothing<E>(c: Crypto<E>, records: seq<Envelope<E>>)
    ensures Following(c, records, |records|, 0) == []
  {
  }

  lemma {:induction false} FollowingLength<E>(c: Crypto<E>, records: seq<Envelope<E>>, k: nat, m: nat)
    requires k + m <= |records|
    ensures |Following(c, records, k, m)| == m
    decreases m
  {
    if m > 0 {
      FollowingLength(c, records, k + 1, m - 1);
    }
  }

  /** After a restart the sender goes on from its file: one send without a failure adds to the log exactly the
      records behind the cursor that was saved, whatever was in memory. */
  lemma RestartSendsExactlyTheUnsaved<E(!new)>(c: Crypto<E>, key: string, p: Pipe<E>, q: nat, limit: nat)
    requires Readable(c, key) && Chained(c, key, p.records, ZERO_HASH) && NEWLINE !in p.partial
    requires q <= |p.records| <= limit
    requires if p.sender.disk.Some? then p.sender.disk.value == At(c, p.records, q) else q == 0
    ensures var p' := Act(c, key, Act(c, key, p, Restart), Send(limit, []));
            p'.sender.log == p.sender.log + Carried(Following(c, p.records, q, |p.records| - q))
  {
    hide Collapse, Deliveries, Chained, Readable, Scan, Following, SendAll, Carried;
    assert p.records[..0] == [] && At(c, p.records, 0) == ORIGIN;
    ScanYieldsNextRecords(c, key, p.records, p.partial, q, limit);
    var batch := Following(c, p.records, q, |p.records| - q);
    var restarted := Act(c, key, p, Restart).sender;
    AllAreSent(restarted, batch, 0);
    var _, d := SendAllDelivers(restarted, batch, [], 0);
    assert batch[0..|batch|] == batch;
  }

  // ----- the outbox -----

  function Underscored(id: string): string {
    if id == "" then "" else [if id[0] == ':' then '_' else id[0]] + Underscored(id[1..])
  }

  /** Colons, which file systems may refuse, become underscores; nothing else changes. */
  lemma {:induction false} UnderscoredIs(id: string)
    ensures |Underscored(id)| == |id|
    ensures forall i :: 0 <= i < |id| ==> Underscored(id)[i] == if id[i] == ':' then '_' else id[i]
  {
    if id != "" {
      UnderscoredIs(id[1..]);
    }
  }

  /** The file an event is exported to: its id, its revision and the start of its digest. */
  function FileName<E>(c: Crypto<E>, event: E): string {
    Underscored(c.eventId(event)) + "-r" + Decimal(c.revision(event)) + "-" + Short(c.payload(event)) + ".json"
  }

  /** Two revisions of one event never share a file, nor do two contents that differ within the first 16 digits. */
  lemma RevisionsHaveOwnFiles<E>(c: Crypto<E>, a: E, b: E)
    requires c.eventId(a) == c.eventId(b) && FileName(c, a) == FileName(c, b)
    ensures c.revision(a) == c.revision(b) && Short(c.payload(a)) == Short(c.payload(b))
  {
    hide Decimal, Short, Underscored;
    var start := Underscored(c.eventId(a)) + "-r";
    var x, y := Short(c.payload(a)) + ".json", Short(c.payload(b)) + ".json";
    assert FileName(c, a) == start + Decimal(c.revision(a)) + (['-'] + x);
    assert FileName(c, b) == start + Decimal(c.revision(b)) + (['-'] + y);
    NumberIsReadable(start, c.revision(a), c.revision(b), '-', x, y);
    assert x[..|x| - 5] == Short(c.payload(a)) && y[..|y| - 5] == Short(c.payload(b));
  }

  /** Exporting keeps a file that holds the same event and refuses one that holds another. */
  function Exported<E(==)>(c: Crypto<E>, files: map<string, E>, event: E): Option<map<string, E>> {
    var name := FileName(c, event);
    if name !in files then Some(files[name := event])
    else if files[name] == event then Some(files)
    else None
  }

  /** The outbox after exporting each delivered event; None once two events collide. */
  function Outbox<E(==)>(c: Crypto<E>, log: seq<Delivery<E>>): Option<map<string, E>> {
    if log == [] then Some(map[])
    else
      var files := Outbox(c, log[..|log| - 1]);
      if files.None? then None else Exported(c, files.value, log[|log| - 1].event)
  }

  /** No two of these events claim one file name. */
  ghost predicate OwnNames<E>(c: Crypto<E>, log: seq<Delivery<E>>) {
    forall i, j :: 0 <= i < j < |log| && FileName(c, log[i].event) == FileName(c, log[j].event) ==>
      log[i].event == log[j].event
  }

  /** The outbox holds one file for every event of the log, and nothing else. */
  ghost predicate Holds<E>(c: Crypto<E>, files: map<string, E>, log: seq<Delivery<E>>) {
    && (forall i :: 0 <= i < |log| ==>
          var name := FileName(c, log[i].event); name in files && files[name] == log[i].event)
    && (forall name :: name in files ==> exists i :: 0 <= i < |log| && name == FileName(c, log[i].event))
  }

  /** Exporting a log succeeds exactly when no two events share a name, and then stores exactly them. */
  lemma {:induction false} OutboxIsTheLog<E>(c: Crypto<E>, log: seq<Delivery<E>>)
    ensures Outbox(c, log).Some? <==> OwnNames(c, log)
    ensures Outbox(c, log).Some? ==> Holds(c, Outbox(c, log).value, log)
  {
    hide FileName;
    if log != [] {
      var n := |log| - 1;
      OutboxIsTheLog(c, log[..n]);
      var before := Outbox(c, log[..n]);
      if before.Some? {
        OutboxNext(c, before.value, log);
      }
    }
  }

  lemma OutboxNext<E>(c: Crypto<E>, files: map<string, E>, log: seq<Delivery<E>>)
    requires log != [] && OwnNames(c, log[..|log| - 1]) && Holds(c, files, log[..|log| - 1])
    ensures var after := Exported(c, files, log[|log| - 1].event);
            && (after.Some? <==> OwnNames(c, log))
            && (after.Some? ==> Holds(c, after.value, log))
  {
    hide FileName;
    var n := |log| - 1;
    var name, after := FileName(c, log[n].event), Exported(c, files, log[n].event);
    assert forall i :: 0 <= i < n ==> log[..n][i] == log[i];
    if after.Some? {
      forall other | other in after.value
        ensures exists i :: 0 <= i < |log| && other == FileName(c, log[i].event)
      {
        if other != name {
          var i :| 0 <= i < n && other == FileName(c, log[..n][i].event);
          assert other == FileName(c, log[i].event);
        }
      }
    }
  }

  class OutboxDirectory<E(==)> {
    const crypto: Crypto<E>
    var files: map<string, E>

    constructor (crypto: Crypto<E>)
      ensures this.crypto == crypto && files == map[]
    {
      this.crypto, this.files := crypto, map[];
    }

    method Export(event: E) returns (name: Option<string>)
      modifies this
      ensures var after := Exported(crypto, old(files), event);
              if after.None? then name == None && files == old(files)
              else name == Some(FileName(crypto, event)) && files == after.value
    {
      var destination := FileName(crypto, event);
      if destination in files {
        if files[destination] != event {
          return None;
        }
        return Some(destination);
      }
      files := files[destination := event];
      name := Some(destination);
    }
  }

  lemma {:induction false} CollapseKeepsMembers<T>(log: seq<T>, x: T)
    ensures x in Collapse(log) <==> x in log
  {
    if |log| > 1 {
      CollapseKeepsMembers(log[..|log| - 1], x);
      assert log == log[..|log| - 1] + [log[|log| - 1]];
    }
  }

  lemma {:induction false} DeliveriesAre<E>(c: Crypto<E>, records: seq<Envelope<E>>, d: nat, i: nat)
    requires i < d <= |records|
    ensures |Deliveries(c, records, d)| == d
    ensures Deliveries(c, records, d)[i] == DeliveryOf(c, records, i)
  {
    hide At;
    if i < d - 1 {
      DeliveriesAre(c, records, d - 1, i);
    } else if d > 1 {
      DeliveriesAre(c, records, d - 1, 0);
    }
  }

  /** Over every run, unless two spooled events share a file name: no export ever collides, and the
      outbox holds exactly the first `q` or `q + 1` records, `q` being where the cursor file stands. */
  lemma {:induction false} OutboxIsAPrefixOfTheSpool<E(!new)>(c: Crypto<E>, key: string, actions: seq<Action<E>>)
    returns (q: nat, d: nat)
    requires Readable(c, key) && LineByLine(actions)
    requires var records := Run(c, key, actions).records;
             OwnNames(c, Deliveries(c, records, |records|))
    ensures var p := Run(c, key, actions);
            && q <= d <= q + 1 && d <= |p.records| && Persisted(p.sender) == At(c, p.records, q)
            && Outbox(c, p.sender.log).Some?
            && (var files := Outbox(c, p.sender.log).value;
                && (forall i :: 0 <= i < d ==>
                      var name := FileName(c, p.records[i].event); name in files && files[name] == p.records[i].event)
                && (forall name :: name in files ==> exists i :: 0 <= i < d && name == FileName(c, p.records[i].event)))
  {
    hide At, Collapse, Readable, FileName, Outbox, Inv, Deliveries;
    q, d := CursorAndLogStayInStep(c, key, actions);
    var p := Run(c, key, actions);
    hide Run;
    LogOwnsNames(c, p.records, p.sender.log, d);
    OutboxIsTheLog(c, p.sender.log);
    var files := Outbox(c, p.sender.log).value;
    forall name | name in files
      ensures exists i :: 0 <= i < d && name == FileName(c, p.records[i].event)
    {
      var j :| 0 <= j < |p.sender.log| && name == FileName(c, p.sender.log[j].event);
      var i := DrawnFrom(c, p.records, p.sender.log, d, j);
    }
    forall i | 0 <= i < d
      ensures var name := FileName(c, p.records[i].event); name in files && files[name] == p.records[i].event
    {
      DeliveriesAre(c, p.records, d, i);
      var x := Deliveries(c, p.records, d)[i];
      CollapseKeepsMembers(p.sender.log, x);
      var j :| 0 <= j < |p.sender.log| && p.sender.log[j] == x;
    }
  }

  /** Every delivery of the log is one of the first `d` records. */
  lemma DrawnFrom<E>(c: Crypto<E>, records: seq<Envelope<E>>, log: seq<Delivery<E>>, d: nat, j: nat) returns (i: nat)
    requires d <= |records| && Collapse(log) == Deliveries(c, records, d) && j < |log|
    ensures i < d && log[j].event == records[i].event
  {
    hide At, Collapse, Deliveries;
    CollapseKeepsMembers(log, log[j]);
    i :| 0 <= i < |Collapse(log)| && Collapse(log)[i] == log[j];
    NoDeliveries(c, records);
    if d > 0 {
      DeliveriesAre(c, records, d, 0);
      DeliveriesAre(c, records, d, i);
    }
  }

  lemma LogOwnsNames<E>(c: Crypto<E>, records: seq<Envelope<E>>, log: seq<Delivery<E>>, d: nat)
    requires d <= |records| && Collapse(log) == Deliveries(c, records, d)
    requires OwnNames(c, Deliveries(c, records, |records|))
    ensures OwnNames(c, log)
  {
    hide At, Collapse, FileName, Deliveries;
    var all := Deliveries(c, records, |records|);
    forall j, k | 0 <= j < k < |log| && FileName(c, log[j].event) == FileName(c, log[k].event)
      ensures log[j].event == log[k].event
    {
      var a := DrawnFrom(c, records, log, d, j);
      var b := DrawnFrom(c, records, log, d, k);
      DeliveriesAre(c, records, |records|, a);
      DeliveriesAre(c, records, |records|, b);
      assert a < b ==> all[a].event == all[b].event;
      assert b < a ==> all[b].event == all[a].event;
    }
  }

  lemma NoDeliveries<E>(c: Crypto<E>, records: seq<Envelope<E>>)
    ensures Deliveries(c, records, 0) == []
  {
  }
}
