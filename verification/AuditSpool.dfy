/** The append-only, hash-chained and authenticated event spool. */
module AuditSpool {
  import opened Wrappers

  type Hash = string

  const ZERO_HASH: Hash := "0000000000000000000000000000000000000000000000000000000000000000"
  const SCHEMA := "dtlab-plc-endpoint-envelope-v1"
  const ALGORITHM := "HMAC-SHA256"

  /** What is authenticated: the event, the key id, and the link to the record before. */
  datatype Unsigned<+E> = Unsigned(event: E, keyId: string, payloadSha: Hash, previous: Hash)

  datatype Signed<+E> = Signed(body: Unsigned<E>, signature: string)

  datatype Envelope<+E> = Envelope(
    schema: string, event: E, algorithm: string, keyId: string, payloadSha: Hash, previous: Hash,
    signature: string, recordSha: Hash, recordId: string)

  /** The digests and the text form of a record, all uninterpreted. */
  datatype Crypto<!E> = Crypto(
    payload: E -> Hash,
    mac: (string, Unsigned<E>) -> string,
    record: Signed<E> -> Hash,
    eventId: E -> string,
    revision: E -> nat,
    encode: Envelope<E> -> string,
    decode: string -> Option<Envelope<E>>)

  function Short(h: Hash): string {
    if |h| <= 16 then h else h[..16]
  }

  const DIGITS := "0123456789"

  function Decimal(n: nat): string {
    if n < 10 then [DIGITS[n]] else Decimal(n / 10) + [DIGITS[n % 10]]
  }

  predicate IsDigits(s: string) {
    forall i :: 0 <= i < |s| ==> '0' <= s[i] <= '9'
  }

  /** The number that digits stand for. */
  function NumberOf(s: string): nat
    requires IsDigits(s)
  {
    if s == "" then 0 else 10 * NumberOf(s[..|s| - 1]) + (s[|s| - 1] - '0') as nat
  }

  lemma DigitIs(d: nat)
    requires d < 10
    ensures '0' <= DIGITS[d] <= '9' && (DIGITS[d] - '0') as nat == d
  {
    assert d == 0 || d == 1 || d == 2 || d == 3 || d == 4 || d == 5 || d == 6 || d == 7 || d == 8 || d == 9;
  }

  lemma NumberSnoc(s: string, digit: char)
    requires IsDigits(s) && '0' <= digit <= '9'
    ensures IsDigits(s + [digit]) && NumberOf(s + [digit]) == 10 * NumberOf(s) + (digit - '0') as nat
  {
    assert (s + [digit])[..|s|] == s;
  }

  lemma {:induction false} DecimalReadsBack(n: nat)
    ensures IsDigits(Decimal(n)) && Decimal(n) != "" && NumberOf(Decimal(n)) == n
  {
    hide NumberOf, IsDigits;
    DigitIs(n % 10);
    if n >= 10 {
      DecimalReadsBack(n / 10);
      NumberSnoc(Decimal(n / 10), DIGITS[n % 10]);
    } else {
      NothingIsZero();
      NumberSnoc("", DIGITS[n]);
      assert "" + [DIGITS[n]] == Decimal(n);
    }
  }

  lemma NothingIsZero()
    ensures IsDigits("") && NumberOf("") == 0
  {
  }

  /** A number between the same start and a character that is no digit can be read out of a text. */
  lemma NumberIsReadable(start: string, m: nat, n: nat, mark: char, x: string, y: string)
    requires start + Decimal(m) + ([mark] + x) == start + Decimal(n) + ([mark] + y) && !('0' <= mark <= '9')
    ensures m == n && x == y
  {
    DecimalReadsBack(m);
    DecimalReadsBack(n);
    hide Decimal;
    var a, b := Decimal(m) + ([mark] + x), Decimal(n) + ([mark] + y);
    assert (start + Decimal(m) + ([mark] + x))[|start|..] == a;
    assert (start + Decimal(n) + ([mark] + y))[|start|..] == b;
    SameDigits(Decimal(m), Decimal(n), mark, x, y);
  }

  lemma SameDigits(d: string, e: string, mark: char, x: string, y: string)
    requires IsDigits(d) && IsDigits(e) && !('0' <= mark <= '9') && d + ([mark] + x) == e + ([mark] + y)
    ensures d == e && x == y
  {
    var a, b := d + ([mark] + x), e + ([mark] + y);
    assert a[|d|] == mark && b[|e|] == mark;
    assert forall i :: 0 <= i < |d| ==> a[i] == d[i];
    assert forall i :: 0 <= i < |e| ==> b[i] == e[i];
    assert |d| == |e|;
    assert d == a[..|d|] && e == b[..|e|];
    assert a[|d| + 1..] == x && b[|e| + 1..] == y;
  }

  /** The flat id of a record: event, revision and the start of the record hash. */
  function RecordId<E>(c: Crypto<E>, event: E, recordSha: Hash): string {
    c.eventId(event) + ":r" + Decimal(c.revision(event)) + ":" + Short(recordSha)
  }

  /** Two revisions of one event never share their record id. */
  lemma RevisionsHaveOwnRecordIds<E>(c: Crypto<E>, a: E, b: E, x: Hash, y: Hash)
    requires c.eventId(a) == c.eventId(b) && RecordId(c, a, x) == RecordId(c, b, y)
    ensures c.revision(a) == c.revision(b) && Short(x) == Short(y)
  {
    hide Decimal, Short;
    var start := c.eventId(a) + ":r";
    assert RecordId(c, a, x) == start + Decimal(c.revision(a)) + ([':'] + Short(x));
    assert RecordId(c, b, y) == start + Decimal(c.revision(b)) + ([':'] + Short(y));
    NumberIsReadable(start, c.revision(a), c.revision(b), ':', Short(x), Short(y));
  }

  function Body<E>(c: Crypto<E>, event: E, keyId: string, previous: Hash): Unsigned<E> {
    Unsigned(event, keyId, c.payload(event), previous)
  }

  function BuildEnvelope<E>(c: Crypto<E>, event: E, keyId: string, key: string, previous: Hash): Envelope<E> {
    var body := Body(c, event, keyId, previous);
    var signature := c.mac(key, body);
    var recordSha := c.record(Signed(body, signature));
    Envelope(SCHEMA, event, ALGORITHM, keyId, body.payloadSha, previous, signature, recordSha,
             RecordId(c, event, recordSha))
  }

  datatype Flaw =
    | UnsupportedSchema | UnsupportedAlgorithm | PayloadMismatch | ChainBroken
    | SignatureMismatch | RecordMismatch | RecordIdMismatch | Unreadable

  /** Validates every part of an envelope by recomputing it. */
  function VerifyEnvelope<E>(c: Crypto<E>, e: Envelope<E>, key: string, expected: Option<Hash>): Result<Hash, Flaw> {
    if e.schema != SCHEMA then Err(UnsupportedSchema)
    else if e.algorithm != ALGORITHM then Err(UnsupportedAlgorithm)
    else if c.payload(e.event) != e.payloadSha then Err(PayloadMismatch)
    else if expected.Some? && e.previous != expected.value then Err(ChainBroken)
    else
      var body := Body(c, e.event, e.keyId, e.previous);
      var signature := c.mac(key, body);
      if signature != e.signature then Err(SignatureMismatch)
      else
        var recordSha := c.record(Signed(body, signature));
        if recordSha != e.recordSha then Err(RecordMismatch)
        else if e.recordId != RecordId(c, e.event, recordSha) then Err(RecordIdMismatch)
        else Ok(recordSha)
  }

  /** Verification accepts exactly what signing produces, on the expected link. */
  lemma VerifyAcceptsExactlyBuilt<E>(c: Crypto<E>, e: Envelope<E>, key: string, expected: Option<Hash>)
    ensures VerifyEnvelope(c, e, key, expected).Ok? <==>
            && e == BuildEnvelope(c, e.event, e.keyId, key, e.previous)
            && (expected.Some? ==> e.previous == expected.value)
    ensures VerifyEnvelope(c, e, key, expected).Ok? ==> VerifyEnvelope(c, e, key, expected).value == e.recordSha
  {
  }

  /** The flaw that is named is the first part, in this order, in which the envelope is not what signing its own
      event, key id and previous hash would have produced. */
  lemma FlawIsTheFirstDifference<E>(c: Crypto<E>, e: Envelope<E>, key: string, expected: Option<Hash>)
    ensures var built, flaw := BuildEnvelope(c, e.event, e.keyId, key, e.previous),
                               VerifyEnvelope(c, e, key, expected);
            var linked := expected.Some? ==> e.previous == expected.value;
            && (flaw == Err(UnsupportedSchema) <==> e.schema != built.schema)
            && (flaw == Err(UnsupportedAlgorithm) <==> e.schema == built.schema && e.algorithm != built.algorithm)
            && (flaw == Err(PayloadMismatch) <==>
                  e == built.(payloadSha := e.payloadSha, signature := e.signature, recordSha := e.recordSha,
                              recordId := e.recordId) && e.payloadSha != built.payloadSha)
            && (flaw == Err(ChainBroken) <==>
                  !linked && e == built.(signature := e.signature, recordSha := e.recordSha, recordId := e.recordId))
            && (flaw == Err(SignatureMismatch) <==>
                  linked && e == built.(signature := e.signature, recordSha := e.recordSha, recordId := e.recordId)
                  && e.signature != built.signature)
            && (flaw == Err(RecordMismatch) <==>
                  linked && e == built.(recordSha := e.recordSha, recordId := e.recordId)
                  && e.recordSha != built.recordSha)
            && (flaw == Err(RecordIdMismatch) <==>
                  linked && e == built.(recordId := e.recordId) && e.recordId != built.recordId)
  {
  }

  /** What a verified record shows: each printed digest and the id, field by field. */
  lemma VerifiedMeans<E>(c: Crypto<E>, e: Envelope<E>, key: string, expected: Option<Hash>)
    ensures VerifyEnvelope(c, e, key, expected).Ok? <==>
            && e.schema == "dtlab-plc-endpoint-envelope-v1" && e.algorithm == "HMAC-SHA256"
            && e.payloadSha == c.payload(e.event)
            && e.signature == c.mac(key, Unsigned(e.event, e.keyId, e.payloadSha, e.previous))
            && e.recordSha == c.record(Signed(Unsigned(e.event, e.keyId, e.payloadSha, e.previous), e.signature))
            && ShowsId(c, e)
            && (expected.Some? ==> e.previous == expected.value)
  {
  }

  /** Event id, revision, and the first sixteen characters of the record hash. */
  predicate ShowsId<E>(c: Crypto<E>, e: Envelope<E>) {
    var start := c.eventId(e.event) + ":r" + Decimal(c.revision(e.event)) + ":";
    && start <= e.recordId && e.recordId[|start|..] <= e.recordSha
    && (|e.recordId| == |start| + 16 || (|e.recordSha| < 16 && e.recordId == start + e.recordSha))
  }

  /** Nothing can be changed under a signature: under one key, where the authentication code tells what it was made
      of, two verified records with one signature are the same record. */
  lemma OneSignatureOneRecord<E(!new)>(c: Crypto<E>, key: string, x: Envelope<E>, y: Envelope<E>)
    requires forall a, b :: c.mac(key, a) == c.mac(key, b) ==> a == b
    requires VerifyEnvelope(c, x, key, None).Ok? && VerifyEnvelope(c, y, key, None).Ok?
    requires x.signature == y.signature
    ensures x == y
  {
    VerifyAcceptsExactlyBuilt(c, x, key, None);
    VerifyAcceptsExactlyBuilt(c, y, key, None);
    assert Body(c, x.event, x.keyId, x.previous) == Body(c, y.event, y.keyId, y.previous);
  }

  // ----- chains -----

  function HeadHash<E>(records: seq<Envelope<E>>, start: Hash): Hash {
    if records == [] then start else records[|records| - 1].recordSha
  }

  /** Each record verifies against the hash of the record before it. */
  ghost predicate Chained<E(!new)>(c: Crypto<E>, key: string, records: seq<Envelope<E>>, start: Hash) {
    forall i :: 0 <= i < |records| ==>
      VerifyEnvelope(c, records[i], key, Some(HeadHash(records[..i], start))).Ok?
  }

  lemma ChainedSnoc<E(!new)>(c: Crypto<E>, key: string, records: seq<Envelope<E>>, start: Hash, e: Envelope<E>)
    requires Chained(c, key, records, start)
    ensures Chained(c, key, records + [e], start) <==> VerifyEnvelope(c, e, key, Some(HeadHash(records, start))).Ok?
  {
    hide VerifyEnvelope;
    var longer := records + [e];
    forall i | 0 <= i < |records| ensures longer[..i] == records[..i] && longer[i] == records[i] {
    }
    assert longer[..|records|] == records && longer[|records|] == e;
  }

  lemma ChainedPrefix<E(!new)>(c: Crypto<E>, key: string, records: seq<Envelope<E>>, start: Hash, n: nat)
    requires Chained(c, key, records, start) && n <= |records|
    ensures Chained(c, key, records[..n], start)
  {
    hide VerifyEnvelope;
    forall i | 0 <= i < n ensures records[..n][..i] == records[..i] {
    }
  }

  ghost predicate CollisionFree<E(!new)>(c: Crypto<E>) {
    && (forall x, y :: c.record(x) == c.record(y) ==> x == y)
    && (forall x :: c.record(x) != ZERO_HASH)
  }

  /** The head hash commits to the whole spool: two spools that verify and end alike are the same,
      event for event, whatever keys they were verified with. */
  lemma {:induction false} HeadHashCommitsToSpool<E(!new)>(
    c: Crypto<E>, k1: string, k2: string, a: seq<Envelope<E>>, b: seq<Envelope<E>>)
    requires CollisionFree(c) && Chained(c, k1, a, ZERO_HASH) && Chained(c, k2, b, ZERO_HASH)
    requires HeadHash(a, ZERO_HASH) == HeadHash(b, ZERO_HASH)
    ensures a == b
  {
    hide VerifyEnvelope, BuildEnvelope, Chained, CollisionFree;
    if a != [] {
      LastLink(c, k1, a);
    }
    if b != [] {
      LastLink(c, k2, b);
    }
    if a != [] && b != [] {
      var m, n := |a| - 1, |b| - 1;
      SameDigestSameRecord(c, k1, k2, a[m], b[n]);
      ChainedPrefix(c, k1, a, ZERO_HASH, m);
      ChainedPrefix(c, k2, b, ZERO_HASH, n);
      HeadHashCommitsToSpool(c, k1, k2, a[..m], b[..n]);
      assert a == a[..m] + [a[m]] && b == b[..n] + [b[n]];
    }
  }

  lemma LastLink<E(!new)>(c: Crypto<E>, key: string, a: seq<Envelope<E>>)
    requires a != [] && Chained(c, key, a, ZERO_HASH)
    ensures var e := a[|a| - 1];
            && e == BuildEnvelope(c, e.event, e.keyId, key, e.previous)
            && e.previous == HeadHash(a[..|a| - 1], ZERO_HASH)
            && (CollisionFree(c) ==> e.recordSha != ZERO_HASH)
  {
    VerifyAcceptsExactlyBuilt(c, a[|a| - 1], key, Some(HeadHash(a[..|a| - 1], ZERO_HASH)));
  }

  lemma SameDigestSameRecord<E(!new)>(c: Crypto<E>, k1: string, k2: string, x: Envelope<E>, y: Envelope<E>)
    requires CollisionFree(c) && x.recordSha == y.recordSha
    requires x == BuildEnvelope(c, x.event, x.keyId, k1, x.previous)
    requires y == BuildEnvelope(c, y.event, y.keyId, k2, y.previous)
    ensures x == y
  {
    var u, v := Body(c, x.event, x.keyId, x.previous), Body(c, y.event, y.keyId, y.previous);
    assert c.record(Signed(u, c.mac(k1, u))) == c.record(Signed(v, c.mac(k2, v)));
    assert Signed(u, c.mac(k1, u)) == Signed(v, c.mac(k2, v));
  }

  // ----- the spool file -----

  const NEWLINE := '\n'

  predicate IsSpace(ch: char) {
    ch == ' ' || 9 <= ch as int <= 13 || 28 <= ch as int <= 31
  }

  predicate IsBlank(line: string) {
    forall i :: 0 <= i < |line| ==> IsSpace(line[i])
  }

  /** What signing produces prints as one non-blank line that can be read back. Nothing is asked of envelopes
      that no append builds. */
  ghost predicate Readable<E(!new)>(c: Crypto<E>, key: string) {
    forall event, keyId, previous :: ReadsBack(c, BuildEnvelope(c, event, keyId, key, previous))
  }

  ghost predicate AllReadBack<E>(c: Crypto<E>, records: seq<Envelope<E>>) {
    forall i :: 0 <= i < |records| ==> ReadsBack(c, records[i])
  }

  lemma ChainReadsBack<E(!new)>(c: Crypto<E>, key: string, records: seq<Envelope<E>>, start: Hash)
    requires Readable(c, key) && Chained(c, key, records, start)
    ensures AllReadBack(c, records)
  {
    hide VerifyEnvelope, BuildEnvelope, ReadsBack;
    forall i | 0 <= i < |records| ensures ReadsBack(c, records[i]) {
      var e := records[i];
      VerifyAcceptsExactlyBuilt(c, e, key, Some(HeadHash(records[..i], start)));
      assert ReadsBack(c, BuildEnvelope(c, e.event, e.keyId, key, e.previous));
    }
  }

  ghost predicate ReadsBack<E>(c: Crypto<E>, e: Envelope<E>) {
    c.decode(c.encode(e)) == Some(e) && NEWLINE !in c.encode(e) && !IsBlank(c.encode(e))
  }

  function Line<E>(c: Crypto<E>, e: Envelope<E>): string {
    c.encode(e) + [NEWLINE]
  }

  function Text<E>(c: Crypto<E>, records: seq<Envelope<E>>): string {
    if records == [] then "" else Text(c, records[..|records| - 1]) + Line(c, records[|records| - 1])
  }

  lemma TextSnoc<E>(c: Crypto<E>, records: seq<Envelope<E>>, e: Envelope<E>)
    ensures Text(c, records + [e]) == Text(c, records) + Line(c, e)
  {
    assert (records + [e])[..|records|] == records;
  }

  /** The first newline at or after `from`, or the end of the text. */
  function NextNewline(file: string, from: nat): (n: nat)
    ensures from <= |file| ==> from <= n <= |file| && (n < |file| ==> file[n] == NEWLINE)
                               && forall i :: from <= i < n ==> file[i] != NEWLINE
    decreases |file| - from
  {
    if from >= |file| || file[from] == NEWLINE then from else NextNewline(file, from + 1)
  }

  lemma {:induction false} TextPrefix<E>(c: Crypto<E>, records: seq<Envelope<E>>, k: nat)
    requires k <= |records|
    ensures Text(c, records[..k]) <= Text(c, records)
    decreases |records|
  {
    if k == |records| {
      assert records[..k] == records;
    } else {
      var n := |records| - 1;
      TextPrefix(c, records[..n], k);
      assert records[..n][..k] == records[..k];
    }
  }

  /** One complete line: its newline is found, and the text before it is the record. */
  lemma ReadLine<E>(c: Crypto<E>, records: seq<Envelope<E>>, partial: string, k: nat)
    requires k < |records| && ReadsBack(c, records[k])
    ensures var file, from := Text(c, records) + partial, |Text(c, records[..k])|;
            var newline := NextNewline(file, from);
            && from <= newline < |file|
            && newline + 1 == |Text(c, records[..k + 1])|
            && file[from..newline] == c.encode(records[k])
  {
    var file, e := Text(c, records) + partial, records[k];
    var from, line := |Text(c, records[..k])|, c.encode(e);
    assert Text(c, records[..k]) + Line(c, e) <= file && |Text(c, records[..k + 1])| == from + |line| + 1 by {
      assert records[..k + 1] == records[..k] + [e];
      TextSnoc(c, records[..k], e);
      TextPrefix(c, records, k + 1);
    }
    hide Text;
    LineAt(file, Text(c, records[..k]), line);
    FirstNewline(file, from, line);
  }

  lemma LineAt(file: string, before: string, line: string)
    requires before + (line + [NEWLINE]) <= file
    ensures |before| + |line| < |file|
    ensures file[|before|..|before| + |line|] == line && file[|before| + |line|] == NEWLINE
  {
    var upTo := before + (line + [NEWLINE]);
    assert upTo[|before|..|before| + |line|] == line;
    assert upTo[|before| + |line|] == NEWLINE;
  }

  lemma FirstNewline(file: string, from: nat, line: string)
    requires from + |line| < |file| && file[from..from + |line|] == line
    requires file[from + |line|] == NEWLINE && NEWLINE !in line
    ensures NextNewline(file, from) == from + |line|
  {
    forall i | from <= i < from + |line|
      ensures file[i] != NEWLINE
    {
      assert file[from..from + |line|][i - from] == line[i - from];
    }
  }

  // ----- reopening -----

  /** The last line with anything on it, from a position on; `last` is the one found so far. */
  function LastLine(file: string, from: nat, last: Option<string>): Option<string>
    decreases |file| - from
  {
    if from >= |file| then last
    else
      var newline := NextNewline(file, from);
      LastLine(file, newline + 1, if IsBlank(file[from..newline]) then last else Some(file[from..newline]))
  }

  /** The hash the next record must carry, or None when the last line is no record. */
  function LastRecordHash<E>(c: Crypto<E>, file: string): Option<Hash> {
    var last := LastLine(file, 0, None);
    if last.None? then Some(ZERO_HASH)
    else
      var envelope := c.decode(last.value);
      if envelope.None? then None else Some(envelope.value.recordSha)
  }

  lemma {:induction false} LastLineFrom<E>(c: Crypto<E>, records: seq<Envelope<E>>, k: nat, last: Option<string>)
    requires AllReadBack(c, records) && k <= |records|
    ensures LastLine(Text(c, records), |Text(c, records[..k])|, last)
            == if k == |records| then last else Some(c.encode(records[|records| - 1]))
    decreases |records| - k
  {
    hide Text, IsBlank;
    if k == |records| {
      assert records[..k] == records;
    } else {
      assert Text(c, records) + "" == Text(c, records);
      ReadLine(c, records, "", k);
      assert ReadsBack(c, records[k]);
      LastLineFrom(c, records, k + 1, Some(c.encode(records[k])));
    }
  }

  /** A reopened spool continues the chain exactly where it stopped. */
  lemma ReopenedSpoolContinues<E(!new)>(c: Crypto<E>, key: string, records: seq<Envelope<E>>)
    requires Readable(c, key) && Chained(c, key, records, ZERO_HASH)
    ensures LastRecordHash(c, Text(c, records)) == Some(HeadHash(records, ZERO_HASH))
  {
    hide NextNewline, LastLine, Readable, Chained;
    assert records[..0] == [];
    ChainReadsBack(c, key, records, ZERO_HASH);
    LastLineFrom(c, records, 0, None);
    if records != [] {
      assert ReadsBack(c, records[|records| - 1]);
    }
  }

  datatype AppendError = SpoolFull

  /** The spool object; `records` is what the file holds, line by line. */
  class SignedSpool<E(!new)> {
    const crypto: Crypto<E>
    const keyId: string
    const key: string
    const maxBytes: int
    var file: string
    var previousHash: Hash
    ghost var records: seq<Envelope<E>>

    ghost predicate Valid()
      reads this
    {
      && file == Text(crypto, records)
      && previousHash == HeadHash(records, ZERO_HASH)
      && Chained(crypto, key, records, ZERO_HASH)
    }

    constructor (crypto: Crypto<E>, keyId: string, key: string, maxBytes: int)
      ensures Valid() && records == [] && file == ""
      ensures this.crypto == crypto && this.keyId == keyId && this.key == key && this.maxBytes == maxBytes
    {
      this.crypto, this.keyId, this.key, this.maxBytes := crypto, keyId, key, maxBytes;
      this.file, this.previousHash, this.records := "", ZERO_HASH, [];
    }

    /** Restarts on the file as it is: the chain position is read back from its last line. */
    method Reopen() returns (ok: bool)
      modifies this`previousHash
      ensures ok <==> LastRecordHash(crypto, file).Some?
      ensures previousHash == if ok then LastRecordHash(crypto, file).value else old(previousHash)
      ensures Readable(crypto, key) && old(Valid()) ==> ok && Valid() && previousHash == old(previousHash)
    {
      hide Text;
      var last: Option<string> := None;
      var from: nat := 0;
      while from < |file|
        invariant LastLine(file, 0, None) == LastLine(file, from, last)
        decreases |file| - from
      {
        var newline := NextNewline(file, from);
        if !IsBlank(file[from..newline]) {
          last := Some(file[from..newline]);
        }
        from := newline + 1;
      }
      if Readable(crypto, key) && Valid() {
        ReopenedSpoolContinues(crypto, key, records);
      }
      if last.None? {
        previousHash := ZERO_HASH;
        return true;
      }
      var envelope := crypto.decode(last.value);
      if envelope.None? {
        return false;
      }
      previousHash := envelope.value.recordSha;
      ok := true;
    }

    /** Appends one signed record, or refuses and leaves the file untouched. */
    method Append(event: E) returns (r: Result<Envelope<E>, AppendError>)
      requires Valid()
      modifies this
      ensures Valid()
      ensures var e := BuildEnvelope(crypto, event, keyId, key, HeadHash(old(records), ZERO_HASH));
              if |old(file)| + |Line(crypto, e)| > maxBytes
              then r == Err(SpoolFull) && records == old(records) && file == old(file)
              else r == Ok(e) && records == old(records) + [e] && file == old(file) + Line(crypto, e)
    {
      hide VerifyEnvelope, Chained;
      var envelope := BuildEnvelope(crypto, event, keyId, key, previousHash);
      var line := crypto.encode(envelope) + [NEWLINE];
      if |file| + |line| > maxBytes {
        return Err(SpoolFull);
      }
      TextSnoc(crypto, records, envelope);
      VerifyAcceptsExactlyBuilt(crypto, envelope, key, Some(HeadHash(records, ZERO_HASH)));
      ChainedSnoc(crypto, key, records, ZERO_HASH, envelope);
      file := file + line;
      records := records + [envelope];
      previousHash := envelope.recordSha;
      r := Ok(envelope);
    }
  }
}
