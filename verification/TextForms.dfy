/** What the audit theorems ask of text forms and digests can be met: a text form of every value that is stored. */
module TextForms {
  import opened Wrappers
  import opened EpisodeTally
  import opened Aggregator
  import Spool = AuditSpool

  // ----- trees and their text -----

  datatype Tree = Leaf(n: nat) | Node(parts: seq<Tree>)

  function Unary(n: nat): string {
    if n == 0 then "b" else "a" + Unary(n - 1)
  }

  function Text(t: Tree): string {
    match t
    case Leaf(n) => Unary(n)
    case Node(parts) => "(" + TextAll(parts)
  }

  function TextAll(ts: seq<Tree>): string {
    if ts == [] then ")" else Text(ts[0]) + TextAll(ts[1..])
  }

  lemma {:induction false} UnaryIsPrefixFree(m: nat, n: nat, x: string, y: string)
    requires Unary(m) + x == Unary(n) + y
    ensures m == n && x == y
  {
    assert (Unary(m) + x)[0] == Unary(m)[0] && (Unary(n) + y)[0] == Unary(n)[0];
    assert (Unary(m) + x)[1..] == Unary(m)[1..] + x && (Unary(n) + y)[1..] == Unary(n)[1..] + y;
    if m > 0 && n > 0 {
      UnaryIsPrefixFree(m - 1, n - 1, x, y);
    } else {
      assert m == n;
      assert "" + x == x && "" + y == y;
    }
  }

  lemma FirstChar(t: Tree)
    ensures Text(t) != "" && Text(t)[0] == if t.Node? then '(' else if t.n == 0 then 'b' else 'a'
  {
  }

  /** No text of a tree continues another one: a text can be read in one way only. */
  lemma {:induction false} TextIsPrefixFree(t: Tree, u: Tree, x: string, y: string)
    requires Text(t) + x == Text(u) + y
    ensures t == u && x == y
    decreases t, 0
  {
    FirstChar(t);
    FirstChar(u);
    assert (Text(t) + x)[0] == Text(t)[0] && (Text(u) + y)[0] == Text(u)[0];
    if t.Leaf? {
      UnaryIsPrefixFree(t.n, u.n, x, y);
    } else {
      assert (Text(t) + x)[1..] == TextAll(t.parts) + x && (Text(u) + y)[1..] == TextAll(u.parts) + y;
      TextAllIsPrefixFree(t.parts, u.parts, x, y);
    }
  }

  lemma {:induction false} TextAllIsPrefixFree(ts: seq<Tree>, us: seq<Tree>, x: string, y: string)
    requires TextAll(ts) + x == TextAll(us) + y
    ensures ts == us && x == y
    decreases ts, 1
  {
    FirstOfAll(ts, x);
    FirstOfAll(us, y);
    if ts == [] {
      assert us == [];
      assert (")" + x)[1..] == x && (")" + y)[1..] == y;
    } else {
      assert (Text(ts[0]) + TextAll(ts[1..])) + x == Text(ts[0]) + (TextAll(ts[1..]) + x);
      assert (Text(us[0]) + TextAll(us[1..])) + y == Text(us[0]) + (TextAll(us[1..]) + y);
      TextIsPrefixFree(ts[0], us[0], TextAll(ts[1..]) + x, TextAll(us[1..]) + y);
      TextAllIsPrefixFree(ts[1..], us[1..], x, y);
      assert ts == [ts[0]] + ts[1..] && us == [us[0]] + us[1..];
    }
  }

  lemma FirstOfAll(ts: seq<Tree>, x: string)
    ensures TextAll(ts) != "" && ((TextAll(ts) + x)[0] == ')' <==> ts == [])
  {
    if ts != [] {
      FirstChar(ts[0]);
    }
  }

  lemma SameText(t: Tree, u: Tree)
    requires Text(t) == Text(u)
    ensures t == u
  {
    assert Text(t) + "" == Text(u) + "";
    TextIsPrefixFree(t, u, "", "");
  }

  predicate Plain(s: string) {
    forall i :: 0 <= i < |s| ==> s[i] in "ab()"
  }

  lemma {:induction false} UnaryIsPlain(n: nat)
    ensures Plain(Unary(n))
  {
    if n > 0 {
      UnaryIsPlain(n - 1);
    }
  }

  lemma {:induction false} TextIsPlain(t: Tree)
    ensures Plain(Text(t))
    decreases t, 0
  {
    match t
    case Leaf(n) => UnaryIsPlain(n);
    case Node(parts) => TextAllIsPlain(parts);
  }

  lemma {:induction false} TextAllIsPlain(ts: seq<Tree>)
    ensures Plain(TextAll(ts))
    decreases ts, 1
  {
    if ts != [] {
      TextIsPlain(ts[0]);
      TextAllIsPlain(ts[1..]);
    }
  }

  // ----- every value of the audit pipeline as a tree -----

  function OfInt(i: int): Tree {
    Leaf(if i >= 0 then 2 * i else -2 * i - 1)
  }

  function OfInts(s: seq<int>): Tree {
    Node(seq(|s|, i requires 0 <= i < |s| => OfInt(s[i])))
  }

  function OfString(s: string): Tree {
    Node(seq(|s|, i requires 0 <= i < |s| => Leaf(s[i] as nat)))
  }

  function OfPort(p: Option<int>): Tree {
    if p.None? then Node([]) else OfInt(p.value)
  }

  ghost function Listed<T(!new)>(s: set<T>): (r: seq<T>)
    ensures forall x :: x in s <==> x in r
  {
    if s == {} then []
    else
      var x :| x in s;
      [x] + Listed(s - {x})
  }

  ghost function OfIntSet(s: set<int>): Tree {
    OfInts(Listed(s))
  }

  function OfWriteKey(k: WriteKey): Tree {
    Node([OfInt(k.functionCode), OfInt(k.address), OfInt(k.quantity), OfString(k.valuesSha)])
  }

  function OfBucket(b: Bucket): Tree {
    Node([OfInts(b.values), OfInt(if b.truncated then 1 else 0), Leaf(b.count)])
  }

  ghost function OfWrites(m: map<WriteKey, Bucket>): Tree {
    var keys := Listed(m.Keys);
    Node(seq(|keys|, i requires 0 <= i < |keys| => OfEntry(m, keys[i])))
  }

  function OfEntry(m: map<WriteKey, Bucket>, k: WriteKey): Tree {
    Node([OfWriteKey(k), if k in m then OfBucket(m[k]) else Leaf(0)])
  }

  function OfOutcome(o: Outcome): Tree {
    match o
    case Processed => Leaf(0)
    case Rejected => Leaf(1)
    case Unknown => Leaf(2)
  }

  ghost function OfTotals(t: Totals): Tree {
    Node([OfString(t.firstAt), OfString(t.lastAt), OfIntSet(t.functionCodes), OfWrites(t.writes),
          Leaf(t.requestCount), Leaf(t.dropped), Leaf(t.processed), Leaf(t.rejected), Leaf(t.unknown),
          OfOutcome(t.lastOutcome)])
  }

  function OfSource(s: Source): Tree {
    Node([OfString(s.ip), OfPort(s.port), OfString(s.classification)])
  }

  function OfDestination(d: Destination): Tree {
    Node([OfString(d.assetId), OfString(d.ip), OfInt(d.port), OfInt(d.unit)])
  }

  function OfDetection(d: Detection): Tree {
    Node([OfString(d.ruleId), OfString(d.classification), OfString(d.severity), OfString(d.priority)])
  }

  function OfTruth(t: Truth): Tree {
    match t
    case EndpointProcessed => Leaf(0)
    case EndpointRejected => Leaf(1)
    case RequestObserved => Leaf(2)
  }

  ghost function OfEvent(e: Event): Tree {
    Node([Leaf(e.sequence), Leaf(e.revision), OfSource(e.source), OfDestination(e.destination), OfTotals(e.totals),
          OfDetection(e.detection), OfTruth(e.truth)])
  }

  ghost function OfSigned(s: Spool.Signed<Event>): Tree {
    Node([OfEvent(s.body.event), OfString(s.body.keyId), OfString(s.body.payloadSha), OfString(s.body.previous),
          OfString(s.signature)])
  }

  ghost function OfEnvelope(e: Spool.Envelope<Event>): Tree {
    Node([OfString(e.schema), OfEvent(e.event), OfString(e.algorithm), OfString(e.keyId), OfString(e.payloadSha),
          OfString(e.previous), OfString(e.signature), OfString(e.recordSha), OfString(e.recordId)])
  }

  // ----- different values are different trees -----

  lemma IntsDiffer()
    ensures forall a, b {:trigger OfInts(a), OfInts(b)} :: OfInts(a) == OfInts(b) ==> a == b
  {
    forall a, b | OfInts(a) == OfInts(b) ensures a == b {
      assert |OfInts(a).parts| == |OfInts(b).parts|;
      forall i | 0 <= i < |a| ensures a[i] == b[i] {
        assert OfInts(a).parts[i] == OfInts(b).parts[i];
      }
    }
  }

  lemma StringsDiffer()
    ensures forall a, b {:trigger OfString(a), OfString(b)} :: OfString(a) == OfString(b) ==> a == b
  {
    forall a, b | OfString(a) == OfString(b) ensures a == b {
      assert |OfString(a).parts| == |OfString(b).parts|;
      forall i | 0 <= i < |a| ensures a[i] == b[i] {
        assert OfString(a).parts[i] == OfString(b).parts[i];
      }
    }
  }

  lemma IntSetsDiffer(s: set<int>, t: set<int>)
    requires OfIntSet(s) == OfIntSet(t)
    ensures s == t
  {
    IntsDiffer();
    assert forall x :: x in s <==> x in Listed(s);
  }

  lemma EntriesDiffer(a: map<WriteKey, Bucket>, b: map<WriteKey, Bucket>, k: WriteKey, l: WriteKey)
    requires k in a && l in b && OfEntry(a, k) == OfEntry(b, l)
    ensures k == l && a[k] == b[l]
  {
    IntsDiffer();
    StringsDiffer();
    hide OfString, OfInts;
    assert OfEntry(a, k).parts[0] == OfEntry(b, l).parts[0] && OfEntry(a, k).parts[1] == OfEntry(b, l).parts[1];
    SameParts(OfWriteKey(k), OfWriteKey(l));
    SameParts(OfBucket(a[k]), OfBucket(b[l]));
  }

  lemma SameParts(t: Tree, u: Tree)
    requires t == u && t.Node?
    ensures u.Node? && |t.parts| == |u.parts| && forall i :: 0 <= i < |t.parts| ==> t.parts[i] == u.parts[i]
  {
  }

  lemma WritesDiffer(a: map<WriteKey, Bucket>, b: map<WriteKey, Bucket>)
    requires OfWrites(a) == OfWrites(b)
    ensures a == b
  {
    hide OfEntry;
    var p, q := Listed(a.Keys), Listed(b.Keys);
    assert |OfWrites(a).parts| == |p| == |q|;
    forall i | 0 <= i < |p| ensures p[i] in a && p[i] in b && p[i] == q[i] && a[p[i]] == b[p[i]] {
      assert OfWrites(a).parts[i] == OfWrites(b).parts[i];
      assert p[i] in a.Keys && q[i] in b.Keys;
      EntriesDiffer(a, b, p[i], q[i]);
    }
    assert forall k :: k in a <==> k in p;
    assert forall k :: k in b <==> k in q;
  }

  lemma TotalsDiffer(t: Totals, u: Totals)
    requires OfTotals(t) == OfTotals(u)
    ensures t == u
  {
    StringsDiffer();
    hide OfString, OfIntSet, OfWrites;
    SameParts(OfTotals(t), OfTotals(u));
    IntSetsDiffer(t.functionCodes, u.functionCodes);
    WritesDiffer(t.writes, u.writes);
  }

  lemma SourcesDiffer(a: Source, b: Source)
    ensures OfSource(a) == OfSource(b) ==> a == b
  {
    StringsDiffer();
    hide OfString;
    if OfSource(a) == OfSource(b) {
      SameParts(OfSource(a), OfSource(b));
    }
  }

  lemma DestinationsDiffer(a: Destination, b: Destination)
    ensures OfDestination(a) == OfDestination(b) ==> a == b
  {
    StringsDiffer();
    hide OfString;
    if OfDestination(a) == OfDestination(b) {
      SameParts(OfDestination(a), OfDestination(b));
    }
  }

  lemma DetectionsDiffer(a: Detection, b: Detection)
    ensures OfDetection(a) == OfDetection(b) ==> a == b
  {
    StringsDiffer();
    hide OfString;
    if OfDetection(a) == OfDetection(b) {
      SameParts(OfDetection(a), OfDetection(b));
    }
  }

  lemma EventsDiffer(a: Event, b: Event)
    requires OfEvent(a) == OfEvent(b)
    ensures a == b
  {
    hide OfSource, OfDestination, OfTotals, OfDetection;
    SameParts(OfEvent(a), OfEvent(b));
    SourcesDiffer(a.source, b.source);
    DestinationsDiffer(a.destination, b.destination);
    TotalsDiffer(a.totals, b.totals);
    DetectionsDiffer(a.detection, b.detection);
  }

  lemma SignedDiffer(a: Spool.Signed<Event>, b: Spool.Signed<Event>)
    requires OfSigned(a) == OfSigned(b)
    ensures a == b
  {
    StringsDiffer();
    hide OfString, OfEvent;
    SameParts(OfSigned(a), OfSigned(b));
    EventsDiffer(a.body.event, b.body.event);
  }

  lemma EnvelopesDiffer(a: Spool.Envelope<Event>, b: Spool.Envelope<Event>)
    requires OfEnvelope(a) == OfEnvelope(b)
    ensures a == b
  {
    StringsDiffer();
    hide OfString, OfEvent;
    SameParts(OfEnvelope(a), OfEnvelope(b));
    EventsDiffer(a.event, b.event);
  }

  // ----- the text form -----

  ghost function Encode(e: Spool.Envelope<Event>): string {
    Text(OfEnvelope(e))
  }

  ghost function Decode(line: string): Option<Spool.Envelope<Event>> {
    if e :| Encode(e) == line then Some(e) else None
  }

  lemma EncodingReadsBack(e: Spool.Envelope<Event>)
    ensures Decode(Encode(e)) == Some(e)
    ensures Spool.NEWLINE !in Encode(e) && !Spool.IsBlank(Encode(e))
  {
    forall d | Encode(d) == Encode(e) ensures d == e {
      SameText(OfEnvelope(d), OfEnvelope(e));
      EnvelopesDiffer(d, e);
    }
    TextIsPlain(OfEnvelope(e));
    FirstChar(OfEnvelope(e));
    assert Encode(e)[0] == '(' && !Spool.IsSpace('(');
  }

  /** Whatever digests and ids are used besides it, there are a text form of envelopes and a record digest that
      the theorems on the spool and on everything behind it ask for. */
  lemma TextFormExists(c: Spool.Crypto<Event>) returns (d: Spool.Crypto<Event>)
    ensures Spool.CollisionFree(d) && forall key: string :: Spool.Readable(d, key)
    ensures d == c.(record := d.record, encode := d.encode, decode := d.decode)
  {
    hide Encode, Decode, OfSigned;
    d := c.(record := (s: Spool.Signed<Event>) => Text(OfSigned(s)),
            encode := (e: Spool.Envelope<Event>) => Encode(e),
            decode := (line: string) => Decode(line));
    forall key, event, keyId, previous
      ensures Spool.ReadsBack(d, Spool.BuildEnvelope(d, event, keyId, key, previous))
    {
      EncodingReadsBack(Spool.BuildEnvelope(d, event, keyId, key, previous));
    }
    forall x, y | d.record(x) == d.record(y) ensures x == y {
      SameText(OfSigned(x), OfSigned(y));
      SignedDiffer(x, y);
    }
    forall x ensures d.record(x) != Spool.ZERO_HASH {
      TextIsPlain(OfSigned(x));
      assert Spool.ZERO_HASH[63] == '0' && d.record(x) == Text(OfSigned(x));
      assert |d.record(x)| > 63 ==> d.record(x)[63] in "ab()";
    }
  }
}
