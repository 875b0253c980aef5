/** Reading many remote files in batches, and refusing every answer that could be misread. */
module RemoteReads {
  import opened Wrappers
  import opened FiniteSets
  import opened RemoteFraming

  // ----- reading many files: contents and hashes -----

  const NEWLINE := '\n'
  const COLON := ':'

  /** The two answers that name one file per record. */
  datatype Format = Contents | Hashes

  function Before(text: string, sep: string): (n: nat)
    ensures n <= |text|
    ensures sep != "" && n + |sep| <= |text| ==> text[n..n + |sep|] == sep
    decreases |text|
  {
    if sep <= text || text == "" then 0 else 1 + Before(text[1..], sep)
  }

  /** `record.split(sep, maxsplit=1)` when it yields two parts. */
  function Cut(record: string, sep: string): Option<(string, string)>
    requires sep != ""
  {
    var n := Before(record, sep);
    if n + |sep| > |record| then None else Some((record[..n], record[n + |sep|..]))
  }

  predicate IsHex(ch: char) {
    '0' <= ch <= '9' || 'a' <= ch <= 'f'
  }

  predicate IsDigest(text: string) {
    |text| == 64 && forall i :: 0 <= i < 64 ==> IsHex(text[i])
  }

  function Lower(ch: char): char {
    if 'A' <= ch <= 'Z' then ch - 'A' + 'a' else ch
  }

  function Lowered(text: string): string {
    if text == "" then "" else [Lower(text[0])] + Lowered(text[1..])
  }

  /** The characters that end a line. */
  predicate IsBreak(ch: char) {
    var n := ch as int;
    10 <= n <= 13 || 28 <= n <= 30 || n == 0x85 || n == 0x2028 || n == 0x2029
  }

  function LineLength(text: string): (n: nat)
    ensures n <= |text| && (n < |text| ==> IsBreak(text[n])) && forall i :: 0 <= i < n ==> !IsBreak(text[i])
  {
    if text == "" || IsBreak(text[0]) then 0 else 1 + LineLength(text[1..])
  }

  /** A carriage return and a line feed end one line together. */
  function BreakLength(text: string): nat {
    if |text| >= 2 && text[0] == '\r' && text[1] == '\n' then 2 else 1
  }

  /** The lines of a text; the last one need not be ended. */
  function SplitLines(text: string): seq<string>
    decreases |text|
  {
    if text == "" then []
    else
      var n := LineLength(text);
      if n == |text| then [text] else [text[..n]] + SplitLines(text[n + BreakLength(text[n..])..])
  }

  /** The path and the value of one record; `path` is how the reader normalises a printed path. */
  function ReadRecord(f: Format, path: string -> string, record: string): Option<(string, string)> {
    match f
    case Contents =>
      var parts := Cut(record, [COLON]);
      if parts.None? then None else Some((path(parts.value.0), parts.value.1))
    case Hashes =>
      var parts := Cut(record, "  ");
      if parts.None? || !IsDigest(Lowered(parts.value.0)) then None
      else Some((path(parts.value.1), Lowered(parts.value.0)))
  }

  /** Contents come NUL-terminated, hashes as lines. */
  function Records(f: Format, stdout: string, stderr: string): Option<seq<string>> {
    if stderr != "" then None
    else match f
      case Contents =>
        if stdout == "" || stdout[|stdout| - 1] != NUL then None
        else Some(Split(stdout[..|stdout| - 1], NUL))
      case Hashes => Some(SplitLines(stdout))
  }

  /** Every record must name a file of its batch that was not read before. */
  function AddRecords(
    f: Format, path: string -> string, batch: seq<string>, observed: map<string, string>, records: seq<string>)
    : Option<map<string, string>>
  {
    if records == [] then Some(observed)
    else
      var n := |records| - 1;
      var before := AddRecords(f, path, batch, observed, records[..n]);
      var record := ReadRecord(f, path, records[n]);
      if before.None? || record.None? || record.value.0 !in batch || record.value.0 in before.value then None
      else Some(before.value[record.value.0 := record.value.1])
  }

  datatype Answer = Answer(stdout: string, stderr: string)

  function ReadBatch(
    f: Format, path: string -> string, batch: seq<string>, observed: map<string, string>, answer: Option<Answer>)
    : Option<map<string, string>>
  {
    if answer.None? then None
    else
      var records := Records(f, answer.value.stdout, answer.value.stderr);
      if records.None? || |records.value| != |batch| then None
      else AddRecords(f, path, batch, observed, records.value)
  }

  /** One command per batch; None where the command failed. */
  function ReadBatches(f: Format, path: string -> string, batches: seq<seq<string>>, answers: nat -> Option<Answer>)
    : Option<map<string, string>>
  {
    if batches == [] then Some(map[])
    else
      var n := |batches| - 1;
      var before := ReadBatches(f, path, batches[..n], answers);
      if before.None? then None else ReadBatch(f, path, batches[n], before.value, answers(n))
  }

  predicate Distinct(paths: seq<string>) {
    forall i, j :: 0 <= i < j < |paths| ==> paths[i] != paths[j]
  }

  function ReadAll(f: Format, path: string -> string, paths: seq<string>, answers: nat -> Option<Answer>)
    : Option<map<string, string>>
  {
    if !Distinct(paths) then None
    else
      var observed := ReadBatches(f, path, Chunks(paths), answers);
      if observed.None? || observed.value.Keys != (set p | p in paths) then None else observed
  }

  lemma {:induction false} AddRefuses(
    f: Format, path: string -> string, batch: seq<string>, observed: map<string, string>, records: seq<string>, n: nat)
    requires n <= |records| && AddRecords(f, path, batch, observed, records[..n]).None?
    ensures AddRecords(f, path, batch, observed, records).None?
    decreases |records|
  {
    if n < |records| {
      assert records[..|records| - 1][..n] == records[..n];
      AddRefuses(f, path, batch, observed, records[..|records| - 1], n);
    } else {
      assert records[..n] == records;
    }
  }

  method ReadOneBatch(
    f: Format, path: string -> string, batch: seq<string>, observed: map<string, string>, answer: Option<Answer>)
    returns (found: Option<map<string, string>>)
    ensures found == ReadBatch(f, path, batch, observed, answer)
  {
    hide ReadRecord, Records;
    if answer.None? {
      return None;
    }
    var split := Records(f, answer.value.stdout, answer.value.stderr);
    if split.None? || |split.value| != |batch| {
      return None;
    }
    var records, m := split.value, observed;
    for i := 0 to |records|
      invariant AddRecords(f, path, batch, observed, records[..i]) == Some(m)
    {
      assert records[..i + 1][..i] == records[..i];
      var record := ReadRecord(f, path, records[i]);
      if record.None? || record.value.0 !in batch || record.value.0 in m {
        AddRefuses(f, path, batch, observed, records, i + 1);
        return None;
      }
      m := m[record.value.0 := record.value.1];
    }
    assert records[..|records|] == records;
    found := Some(m);
  }

  lemma {:induction false} BatchRefuses(
    f: Format, path: string -> string, batches: seq<seq<string>>, answers: nat -> Option<Answer>, n: nat)
    requires n <= |batches| && ReadBatches(f, path, batches[..n], answers).None?
    ensures ReadBatches(f, path, batches, answers).None?
    decreases |batches|
  {
    hide ReadBatch;
    if n < |batches| {
      assert batches[..|batches| - 1][..n] == batches[..n];
      BatchRefuses(f, path, batches[..|batches| - 1], answers, n);
    } else {
      assert batches[..n] == batches;
    }
  }

  method ReadRequired(f: Format, path: string -> string, paths: seq<string>, answers: nat -> Option<Answer>)
    returns (found: Option<map<string, string>>)
    ensures found == ReadAll(f, path, paths, answers)
  {
    hide ReadBatch;
    if !Distinct(paths) {
      return None;
    }
    var batches := Batches(paths);
    var m: map<string, string> := map[];
    for i := 0 to |batches|
      invariant ReadBatches(f, path, batches[..i], answers) == Some(m)
    {
      assert batches[..i + 1][..i] == batches[..i];
      var more := ReadOneBatch(f, path, batches[i], m, answers(i));
      if more.None? {
        BatchRefuses(f, path, batches, answers, i + 1);
        return None;
      }
      m := more.value;
    }
    assert batches[..|batches|] == batches;
    if m.Keys != (set p | p in paths) {
      return None;
    }
    found := Some(m);
  }

  // ----- what is read is exactly what was printed -----

  /** A record is readable, names a file of the batch not read before, and is kept as read. */
  ghost predicate IsKept(
    f: Format, path: string -> string, batch: seq<string>, observed: map<string, string>, record: string,
    m: map<string, string>)
  {
    var r := ReadRecord(f, path, record);
    r.Some? && r.value.0 in batch && r.value.0 !in observed && r.value.0 in m && m[r.value.0] == r.value.1
  }

  lemma KeptLater(
    f: Format, path: string -> string, batch: seq<string>, observed: map<string, string>, record: string,
    m: map<string, string>, p: string, value: string)
    requires IsKept(f, path, batch, observed, record, m) && p !in m
    ensures IsKept(f, path, batch, observed, record, m[p := value])
  {
  }

  lemma {:induction false} RecordsAreKept(
    f: Format, path: string -> string, batch: seq<string>, observed: map<string, string>, records: seq<string>)
    requires AddRecords(f, path, batch, observed, records).Some?
    ensures var m := AddRecords(f, path, batch, observed, records).value;
            && (forall p :: p in observed ==> p in m && m[p] == observed[p])
            && forall i :: 0 <= i < |records| ==> IsKept(f, path, batch, observed, records[i], m)
  {
    hide ReadRecord;
    if records != [] {
      var n := |records| - 1;
      RecordsAreKept(f, path, batch, observed, records[..n]);
      var before, r := AddRecords(f, path, batch, observed, records[..n]).value, ReadRecord(f, path, records[n]).value;
      var m := before[r.0 := r.1];
      assert IsKept(f, path, batch, observed, records[n], m);
      hide IsKept;
      forall i | 0 <= i < n ensures IsKept(f, path, batch, observed, records[i], m) {
        assert records[..n][i] == records[i];
        KeptLater(f, path, batch, observed, records[i], before, r.0, r.1);
      }
    }
  }

  lemma {:induction false} OneFilePerRecord(
    f: Format, path: string -> string, batch: seq<string>, observed: map<string, string>, records: seq<string>)
    requires AddRecords(f, path, batch, observed, records).Some?
    ensures var m := AddRecords(f, path, batch, observed, records).value;
            && |m| == |observed| + |records| && observed.Keys <= m.Keys <= observed.Keys + (set p | p in batch)
  {
    hide ReadRecord;
    if records != [] {
      OneFilePerRecord(f, path, batch, observed, records[..|records| - 1]);
    }
  }

  lemma {:induction false} SetSize(s: seq<string>)
    ensures |set x | x in s| <= |s|
  {
    if s != [] {
      var n := |s| - 1;
      SetSize(s[..n]);
      assert s == s[..n] + [s[n]];
      assert (set x | x in s) == (set x | x in s[..n]) + {s[n]};
    }
  }

  /** A batch that is accepted is read completely. */
  lemma BatchIsReadCompletely(
    f: Format, path: string -> string, batch: seq<string>, observed: map<string, string>, answer: Option<Answer>)
    requires ReadBatch(f, path, batch, observed, answer).Some?
    ensures ReadBatch(f, path, batch, observed, answer).value.Keys == observed.Keys + set p | p in batch
  {
    hide ReadRecord, Records;
    var records := Records(f, answer.value.stdout, answer.value.stderr).value;
    OneFilePerRecord(f, path, batch, observed, records);
    var m := ReadBatch(f, path, batch, observed, answer).value;
    hide AddRecords, ReadBatch;
    FillsBatch(batch, observed, m);
  }

  lemma FillsBatch(batch: seq<string>, observed: map<string, string>, m: map<string, string>)
    requires |m| == |observed| + |batch| && observed.Keys <= m.Keys <= observed.Keys + (set p | p in batch)
    ensures m.Keys == observed.Keys + set p | p in batch
  {
    var names, added := (set p | p in batch), m.Keys - observed.Keys;
    SetSize(batch);
    AddedSize(observed.Keys, m.Keys);
    assert |m.Keys| == |m| && |observed.Keys| == |observed|;
    SameSize(added, names);
    assert m.Keys == observed.Keys + added;
  }

  lemma AddedSize(was: set<string>, now: set<string>)
    requires was <= now
    ensures |now| == |was| + |now - was|
  {
    assert now == was + (now - was) && was !! (now - was);
  }

  lemma {:induction false} BatchesAreReadCompletely(
    f: Format, path: string -> string, batches: seq<seq<string>>, answers: nat -> Option<Answer>)
    requires ReadBatches(f, path, batches, answers).Some?
    ensures ReadBatches(f, path, batches, answers).value.Keys == set p | p in Concat(batches)
  {
    hide ReadBatch;
    if batches != [] {
      var n := |batches| - 1;
      BatchesAreReadCompletely(f, path, batches[..n], answers);
      BatchIsReadCompletely(f, path, batches[n], ReadBatches(f, path, batches[..n], answers).value, answers(n));
      ConcatSnoc(batches[..n], batches[n]);
      assert batches == batches[..n] + [batches[n]];
    }
  }

  /** Of the two refusals around the batches only the first is ever needed: without repeated paths, answers
      that are all accepted yield exactly the requested paths as keys. */
  lemma ReadAllKeys(f: Format, path: string -> string, paths: seq<string>, answers: nat -> Option<Answer>)
    ensures ReadAll(f, path, paths, answers).Some? <==>
              Distinct(paths) && ReadBatches(f, path, Chunks(paths), answers).Some?
    ensures ReadAll(f, path, paths, answers).Some? ==>
              ReadAll(f, path, paths, answers).value.Keys == set p | p in paths
  {
    hide ReadBatches;
    ChunksPartition(paths);
    if ReadBatches(f, path, Chunks(paths), answers).Some? {
      BatchesAreReadCompletely(f, path, Chunks(paths), answers);
    }
  }

  /** Records one after the other, each ended by the separator. */
  function Terminated(records: seq<string>, sep: char): string {
    if records == [] then "" else Join(records, sep) + [sep]
  }

  lemma CutIs(record: string, sep: string)
    requires sep != "" && Cut(record, sep).Some?
    ensures var (head, tail) := Cut(record, sep).value; record == head + sep + tail
  {
    var n := Before(record, sep);
    assert record == record[..n] + record[n..n + |sep|] + record[n + |sep|..];
  }

  /** Contents are accepted only when the answer is a framing of one record per file of the batch, each a
      path of the batch and the content returned for it. */
  lemma OnlyContentsAreAccepted(
    path: string -> string, batch: seq<string>, observed: map<string, string>, answer: Option<Answer>)
    returns (records: seq<string>)
    requires batch != [] && ReadBatch(Contents, path, batch, observed, answer).Some?
    ensures answer.Some? && answer.value == Answer(Terminated(records, NUL), "") && Plain(records, NUL)
    ensures |records| == |batch|
    ensures var m := ReadBatch(Contents, path, batch, observed, answer).value;
            forall i :: 0 <= i < |records| ==> IsContentOf(path, batch, m, records[i])
  {
    var out := answer.value.stdout;
    records := Records(Contents, out, answer.value.stderr).value;
    JoinSplit(out[..|out| - 1], NUL);
    assert out == out[..|out| - 1] + [NUL];
    hide Split, Join;
    RecordsAreKept(Contents, path, batch, observed, records);
    hide AddRecords;
    var m := ReadBatch(Contents, path, batch, observed, answer).value;
    forall i | 0 <= i < |records| ensures IsContentOf(path, batch, m, records[i]) {
      assert IsKept(Contents, path, batch, observed, records[i], m);
      KeptContent(path, batch, observed, records[i], m);
    }
  }

  ghost predicate IsContentOf(path: string -> string, batch: seq<string>, m: map<string, string>, record: string) {
    exists p, content ::
      record == p + [COLON] + content && path(p) in batch && path(p) in m && m[path(p)] == content
  }

  lemma KeptContent(
    path: string -> string, batch: seq<string>, observed: map<string, string>, record: string, m: map<string, string>)
    requires IsKept(Contents, path, batch, observed, record, m)
    ensures IsContentOf(path, batch, m, record)
  {
    hide Before;
    CutIs(record, [COLON]);
    var (p, content) := Cut(record, [COLON]).value;
    assert record == p + [COLON] + content;
  }

  /** Lines one after the other, each with what ends it. */
  function Lines(lines: seq<string>, breaks: seq<string>): string
    requires |breaks| == |lines|
  {
    if lines == [] then "" else lines[0] + breaks[0] + Lines(lines[1..], breaks[1..])
  }

  /** The characters that end a line, one by one. */
  predicate Breaks(ch: char) {
    ch in {'\n', '\U{b}', '\U{c}', '\r', '\U{1c}', '\U{1d}', '\U{1e}', '\U{85}', '\U{2028}', '\U{2029}'}
  }

  lemma BreaksAre(ch: char)
    ensures IsBreak(ch) <==> Breaks(ch)
  {
  }

  predicate Unbroken(text: string) {
    forall i :: 0 <= i < |text| ==> !Breaks(text[i])
  }

  lemma UnbrokenMeans(text: string)
    ensures Unbroken(text) <==> forall i :: 0 <= i < |text| ==> !IsBreak(text[i])
  {
    forall ch ensures IsBreak(ch) <==> Breaks(ch) {
      BreaksAre(ch);
    }
    hide IsBreak;
  }

  predicate EndsLine(text: string) {
    text == "\r\n" || (|text| == 1 && Breaks(text[0]))
  }

  /** Every line holds no break and is ended by one, but for the last, which need not be unless it is empty. A
      carriage return and a line feed never end two lines. */
  ghost predicate AreLines(lines: seq<string>, breaks: seq<string>) {
    && |breaks| == |lines| && (forall i :: 0 <= i < |lines| ==> Unbroken(lines[i]))
    && (forall i :: 0 <= i < |lines| ==> EndsLine(breaks[i]) || (i == |lines| - 1 && breaks[i] == "" && lines[i] != ""))
    && (forall i :: 0 < i < |lines| ==> !(breaks[i - 1] == "\r" && lines[i] == "" && breaks[i] == "\n"))
  }

  lemma FirstBreak(text: string) returns (m: nat)
    requires LineLength(text) < |text|
    ensures var n := LineLength(text);
            && n < m <= |text| && Unbroken(text[..n]) && EndsLine(text[n..m])
            && (text[n..m] == "\r" && m < |text| ==> text[m] != '\n')
            && SplitLines(text) == [text[..n]] + SplitLines(text[m..])
  {
    var n := LineLength(text);
    m := n + BreakLength(text[n..]);
    SplitLinesNext(text);
    UnbrokenMeans(text[..n]);
    BreaksAre(text[n]);
    BreakEndsLine(text, n);
    hide *;
  }

  lemma SplitLinesNext(text: string)
    requires LineLength(text) < |text|
    ensures var n := LineLength(text);
            SplitLines(text) == [text[..n]] + SplitLines(text[n + BreakLength(text[n..])..])
  {
  }

  lemma BreakEndsLine(text: string, n: nat)
    requires n < |text| && Breaks(text[n])
    ensures var m := n + BreakLength(text[n..]);
            && n < m <= |text| && EndsLine(text[n..m]) && (text[n..m] == "\r" && m < |text| ==> text[m] != '\n')
  {
    var rest := text[n..];
    var m := n + BreakLength(rest);
    assert rest[0] == text[n] && m <= |text| && text[n..m] == rest[..m - n];
    hide Breaks;
    if m == n + 2 {
      assert text[n..m] == "\r\n";
    }
  }

  lemma LastLine(text: string)
    requires LineLength(text) == |text|
    ensures var breaks := if text == "" then [] else [""];
            AreLines(SplitLines(text), breaks) && Lines(SplitLines(text), breaks) == text
  {
    UnbrokenMeans(text);
    hide IsBreak, LineLength, Unbroken, EndsLine;
    assert [text][1..] == [];
    assert [""][1..] == [];
  }

  /** Splitting a text into lines loses only what ends them. */
  lemma {:induction false} SplitLinesIs(text: string) returns (breaks: seq<string>)
    ensures AreLines(SplitLines(text), breaks) && Lines(SplitLines(text), breaks) == text
    decreases |text|
  {
    hide SplitLines, AreLines, Lines, Unbroken, EndsLine, LineLength, BreakLength;
    var n := LineLength(text);
    if n == |text| {
      breaks := if text == "" then [] else [""];
      LastLine(text);
    } else {
      var m := FirstBreak(text);
      var rest := SplitLinesIs(text[m..]);
      breaks := [text[n..m]] + rest;
      if SplitLines(text[m..]) != [] {
        EmptyLineBegins(SplitLines(text[m..]), rest);
      }
      LinesCons(text[..n], text[n..m], SplitLines(text[m..]), rest);
      assert text[..n] + text[n..m] + text[m..] == text;
    }
  }

  lemma LinesCons(line: string, end: string, lines: seq<string>, breaks: seq<string>)
    requires AreLines(lines, breaks) && Unbroken(line) && EndsLine(end)
    requires end == "\r" && lines != [] && lines[0] == "" ==> breaks[0] != "\n"
    ensures AreLines([line] + lines, [end] + breaks)
    ensures Lines([line] + lines, [end] + breaks) == line + end + Lines(lines, breaks)
  {
    hide Unbroken, EndsLine;
    assert ([line] + lines)[1..] == lines && ([end] + breaks)[1..] == breaks;
  }

  lemma EmptyLineBegins(lines: seq<string>, breaks: seq<string>)
    requires AreLines(lines, breaks) && lines != []
    ensures |breaks| == |lines|
    ensures lines[0] == "" && breaks[0] == "\n" ==> "\n" <= Lines(lines, breaks)
  {
  }

  /** Any lines with what ends them are found again. */
  lemma {:induction false} LinesAreFound(lines: seq<string>, breaks: seq<string>)
    requires AreLines(lines, breaks)
    ensures SplitLines(Lines(lines, breaks)) == lines
  {
    if lines != [] {
      hide SplitLines, AreLines, Lines;
      LinesTail(lines, breaks);
      LinesAreFound(lines[1..], breaks[1..]);
      FirstLineIsFound(lines[0], breaks[0], Lines(lines[1..], breaks[1..]));
    } else {
      assert SplitLines("") == [];
    }
  }

  lemma LinesTail(lines: seq<string>, breaks: seq<string>)
    requires AreLines(lines, breaks) && lines != []
    ensures AreLines(lines[1..], breaks[1..]) && Unbroken(lines[0])
    ensures Lines(lines, breaks) == lines[0] + breaks[0] + Lines(lines[1..], breaks[1..])
    ensures var rest := Lines(lines[1..], breaks[1..]);
            || (EndsLine(breaks[0]) && !(breaks[0] == "\r" && "\n" <= rest))
            || (breaks[0] == rest == "" && lines[0] != "")
  {
    hide Unbroken;
    if |lines| > 1 {
      assert lines[1..][0] == lines[1] && breaks[1..][0] == breaks[1];
      LeadingFeed(lines[1..], breaks[1..]);
    }
  }

  lemma LeadingFeed(lines: seq<string>, breaks: seq<string>)
    requires AreLines(lines, breaks) && lines != []
    ensures "\n" <= Lines(lines, breaks) ==> lines[0] == "" && breaks[0] == "\n"
  {
    if lines[0] != "" {
      assert lines[0][0] in lines[0];
      assert Lines(lines, breaks)[0] == lines[0][0];
    }
  }

  lemma FirstLineIsFound(line: string, end: string, rest: string)
    requires Unbroken(line)
    requires (EndsLine(end) && !(end == "\r" && "\n" <= rest)) || (end == rest == "" && line != "")
    ensures SplitLines(line + end + rest) == [line] + SplitLines(rest)
  {
    var text := line + end + rest;
    if end == "" {
      assert text == line;
      UnbrokenMeans(line);
      hide Unbroken, IsBreak;
      assert SplitLines("") == [];
    } else {
      EndOfFirstLine(line, end, rest);
      hide Unbroken, EndsLine, IsBreak, LineLength, BreakLength;
      assert text[|line|..] == end + rest && text[..|line|] == line && text[|line| + |end|..] == rest;
    }
  }

  lemma EndOfFirstLine(line: string, end: string, rest: string)
    requires Unbroken(line) && EndsLine(end) && !(end == "\r" && "\n" <= rest)
    ensures LineLength(line + end + rest) == |line| && BreakLength(end + rest) == |end|
  {
    var text := line + end + rest;
    UnbrokenMeans(line);
    BreaksAre(end[0]);
    hide IsBreak, Unbroken;
    assert forall i :: 0 <= i < |line| ==> text[i] == line[i];
    assert text[|line|] == end[0];
  }

  /** Hashes are accepted only when the answer is one line per file of the batch, each a digest, two spaces and a
      path of the batch, with the digest returned in lower case. */
  lemma OnlyHashesAreAccepted(
    path: string -> string, batch: seq<string>, observed: map<string, string>, answer: Option<Answer>)
    returns (lines: seq<string>, breaks: seq<string>)
    requires ReadBatch(Hashes, path, batch, observed, answer).Some?
    ensures AreLines(lines, breaks) && |lines| == |batch|
    ensures answer.Some? && answer.value == Answer(Lines(lines, breaks), "")
    ensures var m := ReadBatch(Hashes, path, batch, observed, answer).value;
            forall i :: 0 <= i < |lines| ==> IsHashOf(path, batch, m, lines[i])
  {
    lines := SplitLines(answer.value.stdout);
    breaks := SplitLinesIs(answer.value.stdout);
    hide SplitLines, AreLines, Lines;
    RecordsAreKept(Hashes, path, batch, observed, lines);
    hide AddRecords;
    var m := ReadBatch(Hashes, path, batch, observed, answer).value;
    forall i | 0 <= i < |lines| ensures IsHashOf(path, batch, m, lines[i]) {
      assert IsKept(Hashes, path, batch, observed, lines[i], m);
      KeptHash(path, batch, observed, lines[i], m);
    }
  }

  ghost predicate IsHashOf(path: string -> string, batch: seq<string>, m: map<string, string>, line: string) {
    exists digest, p ::
      && line == digest + "  " + p && HexDigest(digest)
      && path(p) in batch && path(p) in m && IsLowerCase(m[path(p)], digest)
  }

  /** Sixty-four hexadecimal digits, in either case. */
  predicate HexDigest(text: string) {
    |text| == 64
    && forall i :: 0 <= i < 64 ==> '0' <= text[i] <= '9' || 'a' <= text[i] <= 'f' || 'A' <= text[i] <= 'F'
  }

  predicate IsLowerCase(low: string, digest: string) {
    |low| == |digest|
    && forall i :: 0 <= i < |low| ==> low[i] == if 'A' <= digest[i] <= 'F' then digest[i] - 'A' + 'a' else digest[i]
  }

  lemma {:induction false} LoweredIs(text: string)
    ensures |Lowered(text)| == |text| && forall i :: 0 <= i < |text| ==> Lowered(text)[i] == Lower(text[i])
  {
    if text != "" {
      LoweredIs(text[1..]);
    }
  }

  lemma DigestMeans(text: string)
    ensures IsDigest(Lowered(text)) <==> HexDigest(text)
    ensures HexDigest(text) ==> IsLowerCase(Lowered(text), text)
  {
    LoweredIs(text);
    forall ch ensures IsHex(Lower(ch)) <==> '0' <= ch <= '9' || 'a' <= ch <= 'f' || 'A' <= ch <= 'F' {
    }
    hide IsHex, Lowered;
  }

  lemma KeptHash(
    path: string -> string, batch: seq<string>, observed: map<string, string>, line: string, m: map<string, string>)
    requires IsKept(Hashes, path, batch, observed, line, m)
    ensures IsHashOf(path, batch, m, line)
  {
    hide Before, Lowered, IsDigest, HexDigest, IsLowerCase;
    CutIs(line, "  ");
    var (digest, p) := Cut(line, "  ").value;
    DigestMeans(digest);
    assert line == digest + "  " + p;
  }

  // ----- what is accepted -----

  /** A record is readable and names this file, which is of the batch and was not read before. */
  ghost predicate Names(
    f: Format, path: string -> string, batch: seq<string>, observed: map<string, string>, record: string, name: string)
  {
    && ReadRecord(f, path, record).Some? && ReadRecord(f, path, record).value.0 == name
    && name in batch && name !in observed
  }

  ghost predicate EachNamesAnother(
    f: Format, path: string -> string, batch: seq<string>, observed: map<string, string>, records: seq<string>,
    names: seq<string>)
  {
    && |names| == |records| && Distinct(names)
    && forall i :: 0 <= i < |records| ==> Names(f, path, batch, observed, records[i], names[i])
  }

  lemma AllButTheLast(
    f: Format, path: string -> string, batch: seq<string>, observed: map<string, string>, records: seq<string>,
    names: seq<string>)
    requires EachNamesAnother(f, path, batch, observed, records, names) && records != []
    ensures var n := |records| - 1;
            && EachNamesAnother(f, path, batch, observed, records[..n], names[..n]) && |names| == n + 1
            && Names(f, path, batch, observed, records[n], names[n]) && names[n] !in names[..n]
  {
    hide Names;
  }

  /** Records are added when each names another file. */
  lemma {:induction false} NewRecordsAreAdded(
    f: Format, path: string -> string, batch: seq<string>, observed: map<string, string>, records: seq<string>,
    names: seq<string>)
    requires EachNamesAnother(f, path, batch, observed, records, names)
    ensures AddRecords(f, path, batch, observed, records).Some?
    ensures forall p :: p in AddRecords(f, path, batch, observed, records).value ==> p in observed || p in names
  {
    hide ReadRecord, EachNamesAnother;
    if records != [] {
      var n := |records| - 1;
      AllButTheLast(f, path, batch, observed, records, names);
      NewRecordsAreAdded(f, path, batch, observed, records[..n], names[..n]);
      assert names == names[..n] + [names[n]] by { assert |names| == n + 1; }
    }
  }

  /** Every answer is accepted that is one line per file of the batch, each sixty-four hexadecimal digits in either
      case, two spaces, and a path of another file of the batch. */
  lemma HashesAreAccepted(
    path: string -> string, batch: seq<string>, observed: map<string, string>, lines: seq<string>,
    breaks: seq<string>, digests: seq<string>, printed: seq<string>, names: seq<string>)
    requires AreLines(lines, breaks) && |lines| == |digests| == |printed| == |names| == |batch| && Distinct(names)
    requires forall i :: 0 <= i < |lines| ==>
               && lines[i] == digests[i] + "  " + printed[i] && HexDigest(digests[i])
               && names[i] == path(printed[i]) && names[i] in batch && names[i] !in observed
    ensures ReadBatch(Hashes, path, batch, observed, Some(Answer(Lines(lines, breaks), ""))).Some?
  {
    hide AreLines, Lines, SplitLines, AddRecords, HexDigest, Cut, IsDigest;
    LinesAreFound(lines, breaks);
    forall i | 0 <= i < |lines|
      ensures Names(Hashes, path, batch, observed, lines[i], names[i])
    {
      DigestMeans(digests[i]);
      HexHasNoSpace(digests[i]);
      CutFirst(digests[i], "  ", printed[i]);
    }
    hide ReadRecord;
    NewRecordsAreAdded(Hashes, path, batch, observed, lines, names);
  }

  lemma HexHasNoSpace(text: string)
    requires HexDigest(text)
    ensures ' ' !in text
  {
  }

  /** Every answer is accepted that is a framing of one record per file of the batch, each the path of another file
      without a colon, a colon, and whatever the file holds without NUL. */
  lemma ContentsAreAccepted(
    path: string -> string, batch: seq<string>, observed: map<string, string>, records: seq<string>,
    printed: seq<string>, contents: seq<string>, names: seq<string>)
    requires Plain(records, NUL) && |records| == |printed| == |contents| == |names| == |batch| && Distinct(names)
    requires batch != []
    requires forall i :: 0 <= i < |records| ==>
               && records[i] == printed[i] + [COLON] + contents[i] && COLON !in printed[i]
               && names[i] == path(printed[i]) && names[i] in batch && names[i] !in observed
    ensures ReadBatch(Contents, path, batch, observed, Some(Answer(Terminated(records, NUL), ""))).Some?
  {
    SplitJoin(records, NUL);
    var out := Terminated(records, NUL);
    assert out[..|out| - 1] == Join(records, NUL);
    hide Split, Join, AddRecords, Cut, Terminated;
    forall i | 0 <= i < |records|
      ensures Names(Contents, path, batch, observed, records[i], names[i])
    {
      CutFirst(printed[i], [COLON], contents[i]);
    }
    hide ReadRecord;
    NewRecordsAreAdded(Contents, path, batch, observed, records, names);
  }

  // ----- round trip -----

  function Printed(f: Format, p: string, value: string): string {
    match f
    case Contents => p + [COLON] + value
    case Hashes => value + "  " + p
  }

  function Separator(f: Format): char {
    if f.Contents? then NUL else NEWLINE
  }

  /** A text without what ends a record. */
  predicate Whole(f: Format, text: string) {
    match f
    case Contents => NUL !in text
    case Hashes => Unbroken(text)
  }

  /** A name the reader leaves alone and a value that cannot be mistaken for framing. */
  predicate Safe(f: Format, path: string -> string, p: string, value: string) {
    && path(p) == p && Whole(f, p)
    && (f.Contents? ==> COLON !in p && NUL !in value)
    && (f.Hashes? ==> IsDigest(value))
  }

  lemma BeforeNext(text: string, sep: string)
    requires text != "" && !(sep <= text)
    ensures Before(text, sep) == 1 + Before(text[1..], sep)
  {
  }

  lemma {:induction false} BeforeFirst(head: string, sep: string, tail: string)
    requires sep != "" && sep[0] !in head
    ensures Before(head + sep + tail, sep) == |head|
  {
    var text := head + sep + tail;
    if head == "" {
      assert text == sep + tail;
    } else {
      BeforeFirst(head[1..], sep, tail);
      var shorter := head[1..] + sep + tail;
      assert text[1..] == shorter && text[0] == head[0] && !(sep <= text);
      BeforeNext(text, sep);
    }
  }

  lemma CutFirst(head: string, sep: string, tail: string)
    requires sep != "" && sep[0] !in head
    ensures Cut(head + sep + tail, sep) == Some((head, tail))
  {
    hide Before;
    BeforeFirst(head, sep, tail);
    var text := head + sep + tail;
    assert text[..|head|] == head && text[|head| + |sep|..] == tail;
  }

  lemma {:induction false} LoweredDigest(text: string)
    requires forall i :: 0 <= i < |text| ==> IsHex(text[i])
    ensures Lowered(text) == text
  {
    if text != "" {
      LoweredDigest(text[1..]);
      assert text == [text[0]] + text[1..];
    }
  }

  lemma PrintedIsRead(f: Format, path: string -> string, p: string, value: string)
    requires Safe(f, path, p, value)
    ensures ReadRecord(f, path, Printed(f, p, value)) == Some((p, value)) && Whole(f, Printed(f, p, value))
  {
    hide Cut, Lowered;
    match f
    case Contents => CutFirst(p, [COLON], value);
    case Hashes =>
      assert ' ' !in value && Unbroken(value) by {
        assert !IsHex(' ') && forall ch :: IsBreak(ch) ==> !IsHex(ch);
      }
      CutFirst(value, "  ", p);
      LoweredDigest(value);
  }

  /** The records a command prints for a batch. */
  function PrintedBatch(f: Format, batch: seq<string>, value: string -> string): seq<string> {
    if batch == [] then []
    else PrintedBatch(f, batch[..|batch| - 1], value) + [Printed(f, batch[|batch| - 1], value(batch[|batch| - 1]))]
  }

  /** The values of some files, one after the other. */
  function Values(observed: map<string, string>, batch: seq<string>, value: string -> string): map<string, string> {
    if batch == [] then observed
    else Values(observed, batch[..|batch| - 1], value)[batch[|batch| - 1] := value(batch[|batch| - 1])]
  }

  lemma {:induction false} ValuesKeys(observed: map<string, string>, batch: seq<string>, value: string -> string)
    ensures forall p :: p in Values(observed, batch, value) <==> p in observed || p in batch
    ensures var m := Values(observed, batch, value); forall p :: p in batch ==> p in m && m[p] == value(p)
  {
    if batch != [] {
      ValuesKeys(observed, batch[..|batch| - 1], value);
      assert batch == batch[..|batch| - 1] + [batch[|batch| - 1]];
    }
  }

  lemma {:induction false} ValuesConcat(
    observed: map<string, string>, a: seq<string>, b: seq<string>, value: string -> string)
    ensures Values(observed, a + b, value) == Values(Values(observed, a, value), b, value)
  {
    if b == [] {
      assert a + b == a;
    } else {
      ValuesConcat(observed, a, b[..|b| - 1], value);
      assert (a + b)[..|a + b| - 1] == a + b[..|b| - 1];
    }
  }

  lemma {:induction false} PrintedBatchIs(
    f: Format, path: string -> string, batch: seq<string>, value: string -> string)
    requires forall p :: p in batch ==> Safe(f, path, p, value(p))
    ensures |PrintedBatch(f, batch, value)| == |batch|
    ensures forall i :: 0 <= i < |batch| ==> Whole(f, PrintedBatch(f, batch, value)[i])
  {
    hide Safe, Printed, ReadRecord, Whole;
    if batch != [] {
      var n := |batch| - 1;
      PrintedBatchIs(f, path, batch[..n], value);
      PrintedIsRead(f, path, batch[n], value(batch[n]));
    }
  }

  lemma {:induction false} BatchIsRead(
    f: Format, path: string -> string, whole: seq<string>, batch: seq<string>, observed: map<string, string>,
    value: string -> string)
    requires Distinct(batch) && forall p :: p in batch ==> p in whole && p !in observed && Safe(f, path, p, value(p))
    ensures AddRecords(f, path, whole, observed, PrintedBatch(f, batch, value)) == Some(Values(observed, batch, value))
  {
    hide ReadRecord, Printed, Safe;
    if batch != [] {
      var n := |batch| - 1;
      BatchIsRead(f, path, whole, batch[..n], observed, value);
      PrintedIsRead(f, path, batch[n], value(batch[n]));
      ValuesKeys(observed, batch[..n], value);
      var printed := PrintedBatch(f, batch[..n], value) + [Printed(f, batch[n], value(batch[n]))];
      assert printed[..|printed| - 1] == PrintedBatch(f, batch[..n], value);
      assert batch[n] !in batch[..n];
    }
  }

  lemma {:induction false} TerminatedLines(records: seq<string>)
    requires forall i :: 0 <= i < |records| ==> Unbroken(records[i])
    ensures SplitLines(Terminated(records, NEWLINE)) == records
  {
    if records != [] {
      TerminatedLines(records[1..]);
      var rest := Terminated(records[1..], NEWLINE);
      var text := records[0] + [NEWLINE] + rest;
      assert Terminated(records, NEWLINE) == text;
      FirstLine(records[0], rest);
    }
  }

  lemma FirstLine(line: string, rest: string)
    requires Unbroken(line)
    ensures SplitLines(line + [NEWLINE] + rest) == [line] + SplitLines(rest)
  {
    var text := line + [NEWLINE] + rest;
    assert text[|line|] == NEWLINE && forall i :: 0 <= i < |line| ==> text[i] == line[i];
    assert LineLength(text) == |line|;
    assert text[..|line|] == line && text[|line| + 1..] == rest;
  }

  lemma TerminatedIsSplit(f: Format, records: seq<string>)
    requires records != [] && forall i :: 0 <= i < |records| ==> Whole(f, records[i])
    ensures Records(f, Terminated(records, Separator(f)), "") == Some(records)
  {
    match f
    case Contents =>
      SplitJoin(records, NUL);
      var out := Terminated(records, NUL);
      assert out[..|out| - 1] == Join(records, NUL);
    case Hashes => TerminatedLines(records);
  }

  /** The answers of commands that print every file of every batch. */
  ghost predicate Answers(
    f: Format, batches: seq<seq<string>>, value: string -> string, answers: nat -> Option<Answer>)
  {
    forall i :: 0 <= i < |batches| ==>
      answers(i) == Some(Answer(Terminated(PrintedBatch(f, batches[i], value), Separator(f)), ""))
  }

  /** One accepted batch, read after others. */
  lemma NextBatchIsRead(
    f: Format, path: string -> string, before: seq<string>, batch: seq<string>, value: string -> string)
    requires Distinct(before + batch) && batch != [] && forall p :: p in batch ==> Safe(f, path, p, value(p))
    ensures ReadBatch(f, path, batch, Values(map[], before, value),
                      Some(Answer(Terminated(PrintedBatch(f, batch, value), Separator(f)), "")))
            == Some(Values(map[], before + batch, value))
  {
    hide Safe, Records, AddRecords, Whole;
    assert forall i :: 0 <= i < |before| ==> (before + batch)[i] == before[i];
    assert forall i :: 0 <= i < |batch| ==> (before + batch)[|before| + i] == batch[i];
    ValuesKeys(map[], before, value);
    PrintedBatchIs(f, path, batch, value);
    BatchIsRead(f, path, batch, batch, Values(map[], before, value), value);
    TerminatedIsSplit(f, PrintedBatch(f, batch, value));
    ValuesConcat(map[], before, batch, value);
  }

  lemma {:induction false} BatchesAreRead(
    f: Format, path: string -> string, batches: seq<seq<string>>, value: string -> string,
    answers: nat -> Option<Answer>)
    requires Distinct(Concat(batches)) && forall i :: 0 <= i < |batches| ==> batches[i] != []
    requires forall p :: p in Concat(batches) ==> Safe(f, path, p, value(p))
    requires Answers(f, batches, value, answers)
    ensures ReadBatches(f, path, batches, answers) == Some(Values(map[], Concat(batches), value))
  {
    hide Safe, ReadBatch, Terminated, PrintedBatch, Values;
    if batches == [] {
      assert Values(map[], [], value) == map[] by { NoValues(value); }
    } else {
      var n := |batches| - 1;
      var before, batch := Concat(batches[..n]), batches[n];
      assert batches == batches[..n] + [batch];
      ConcatSnoc(batches[..n], batch);
      assert forall i :: 0 <= i < |before| ==> (before + batch)[i] == before[i];
      assert forall i :: 0 <= i < |batch| ==> (before + batch)[|before| + i] == batch[i];
      BatchesAreRead(f, path, batches[..n], value, answers);
      NextBatchIsRead(f, path, before, batch, value);
    }
  }

  lemma NoValues(value: string -> string)
    ensures Values(map[], [], value) == map[]
  {
  }

  /** Reading any number of distinct safe files, in batches, yields exactly their values. */
  lemma ReadingRoundTrip(
    f: Format, path: string -> string, paths: seq<string>, value: string -> string, answers: nat -> Option<Answer>)
    requires Distinct(paths) && forall p :: p in paths ==> Safe(f, path, p, value(p))
    requires Answers(f, Chunks(paths), value, answers)
    ensures ReadAll(f, path, paths, answers) == Some(map p | p in paths :: value(p))
  {
    hide Safe, ReadBatches, Answers, Values;
    ChunksPartition(paths);
    BatchesAreRead(f, path, Chunks(paths), value, answers);
    ValuesKeys(map[], paths, value);
    assert Values(map[], paths, value) == map p | p in paths :: value(p);
  }
}
