/** Reading directory listings and file contents from one answer, and batching the requests. */
module RemoteFraming {
  import opened Wrappers

  const NUL := '\0'
  const BATCH: nat := 96

  // ----- splitting on a separator -----

  function Split(text: string, sep: char): (parts: seq<string>)
    ensures |parts| >= 1
  {
    if text == "" then [""]
    else
      var rest := Split(text[1..], sep);
      if text[0] == sep then [""] + rest else [[text[0]] + rest[0]] + rest[1..]
  }

  function Join(parts: seq<string>, sep: char): string
    requires |parts| >= 1
  {
    if |parts| == 1 then parts[0] else parts[0] + [sep] + Join(parts[1..], sep)
  }

  ghost predicate Plain(parts: seq<string>, sep: char) {
    forall i :: 0 <= i < |parts| ==> sep !in parts[i]
  }

  lemma {:induction false} JoinSplit(text: string, sep: char)
    ensures Join(Split(text, sep), sep) == text && Plain(Split(text, sep), sep)
  {
    if text != "" {
      JoinSplit(text[1..], sep);
      var rest, all := Split(text[1..], sep), Split(text, sep);
      if text[0] == sep {
        assert all[1..] == rest;
      } else {
        assert all[1..] == rest[1..];
      }
    }
  }

  lemma {:induction false} SplitPlain(text: string, sep: char)
    requires sep !in text
    ensures Split(text, sep) == [text]
  {
    if text != "" {
      SplitPlain(text[1..], sep);
      assert [text[0]] + text[1..] == text;
    }
  }

  lemma {:induction false} SplitAt(part: string, rest: string, sep: char)
    requires sep !in part
    ensures Split(part + [sep] + rest, sep) == [part] + Split(rest, sep)
  {
    var text := part + [sep] + rest;
    if part == "" {
      assert text[1..] == rest;
    } else {
      SplitAt(part[1..], rest, sep);
      assert text[1..] == part[1..] + [sep] + rest;
      assert [part[0]] + part[1..] == part;
    }
  }

  lemma {:induction false} SplitJoin(parts: seq<string>, sep: char)
    requires |parts| >= 1 && Plain(parts, sep)
    ensures Split(Join(parts, sep), sep) == parts
  {
    if |parts| == 1 {
      SplitPlain(parts[0], sep);
    } else {
      SplitJoin(parts[1..], sep);
      SplitAt(parts[0], Join(parts[1..], sep), sep);
    }
  }

  // ----- directory listings -----

  datatype Entry = Entry(kind: string, name: string)

  /** What the listing command prints: kind and name of each entry, each ended by NUL. */
  function Framed(entries: seq<Entry>): string {
    if entries == [] then ""
    else Framed(entries[..|entries| - 1])
         + entries[|entries| - 1].kind + [NUL] + entries[|entries| - 1].name + [NUL]
  }

  function MapOf(entries: seq<Entry>): map<string, string> {
    if entries == [] then map[]
    else MapOf(entries[..|entries| - 1])[entries[|entries| - 1].name := entries[|entries| - 1].kind]
  }

  /** What a directory can hold: one-letter kinds, and names that are not empty, hold no NUL and do not repeat. */
  ghost predicate Proper(entries: seq<Entry>) {
    && (forall i :: 0 <= i < |entries| ==>
          |entries[i].kind| == 1 && NUL !in entries[i].kind && entries[i].name != "" && NUL !in entries[i].name)
    && (forall i, j :: 0 <= i < j < |entries| ==> entries[i].name != entries[j].name)
  }

  /** Adds the pairs of fields in order; the first bad or repeated one refuses the whole answer. */
  function Collect(fields: seq<string>): Option<map<string, string>>
    requires |fields| % 2 == 0
  {
    if fields == [] then Some(map[])
    else
      var n := |fields| - 2;
      var before := Collect(fields[..n]);
      if before.None? || |fields[n]| != 1 || fields[n + 1] == "" || fields[n + 1] in before.value then None
      else Some(before.value[fields[n + 1] := fields[n]])
  }

  function Entries(stdout: string, stderr: string): Option<map<string, string>> {
    if stderr != "" then None
    else if stdout == "" then Some(map[])
    else if stdout[|stdout| - 1] != NUL then None
    else
      var fields := Split(stdout[..|stdout| - 1], NUL);
      if |fields| % 2 != 0 then None else Collect(fields)
  }

  lemma CollectNext(fields: seq<string>, n: nat)
    requires n % 2 == 0 && n + 2 <= |fields|
    ensures Collect(fields[..n + 2])
            == (var before := Collect(fields[..n]);
                if before.None? || |fields[n]| != 1 || fields[n + 1] == "" || fields[n + 1] in before.value then None
                else Some(before.value[fields[n + 1] := fields[n]]))
  {
    assert fields[..n + 2][..n] == fields[..n];
  }

  lemma {:induction false} CollectRefuses(fields: seq<string>, n: nat)
    requires n % 2 == 0 && |fields| % 2 == 0 && n <= |fields| && Collect(fields[..n]).None?
    ensures Collect(fields).None?
    decreases |fields|
  {
    if n < |fields| {
      assert fields[..|fields| - 2][..n] == fields[..n];
      CollectRefuses(fields[..|fields| - 2], n);
    } else {
      assert fields[..n] == fields;
    }
  }

  method RemoteEntries(stdout: string, stderr: string) returns (entries: Option<map<string, string>>)
    ensures entries == Entries(stdout, stderr)
  {
    if stderr != "" {
      return None;
    }
    if stdout == "" {
      return Some(map[]);
    }
    if stdout[|stdout| - 1] != NUL {
      return None;
    }
    var fields := Split(stdout[..|stdout| - 1], NUL);
    if |fields| % 2 != 0 {
      return None;
    }
    var found: map<string, string> := map[];
    var i := 0;
    while i < |fields|
      invariant i % 2 == 0 && 0 <= i <= |fields| && Collect(fields[..i]) == Some(found)
    {
      CollectNext(fields, i);
      if |fields[i]| != 1 || fields[i + 1] == "" || fields[i + 1] in found {
        CollectRefuses(fields, i + 2);
        return None;
      }
      found := found[fields[i + 1] := fields[i]];
      i := i + 2;
    }
    assert fields[..i] == fields;
    entries := Some(found);
  }

  /** The fields of a listing: kind and name in turn. */
  function Fields(entries: seq<Entry>): seq<string> {
    if entries == [] then []
    else Fields(entries[..|entries| - 1]) + [entries[|entries| - 1].kind, entries[|entries| - 1].name]
  }

  lemma {:induction false} FieldsAre(entries: seq<Entry>)
    ensures |Fields(entries)| == 2 * |entries|
    ensures Proper(entries) ==> Plain(Fields(entries), NUL)
  {
    if entries != [] {
      FieldsAre(entries[..|entries| - 1]);
    }
  }

  lemma {:induction false} JoinSnoc(parts: seq<string>, sep: char, last: string)
    requires |parts| >= 1
    ensures Join(parts + [last], sep) == Join(parts, sep) + [sep] + last
  {
    if |parts| > 1 {
      JoinSnoc(parts[1..], sep, last);
      assert (parts + [last])[1..] == parts[1..] + [last];
    } else {
      assert (parts + [last])[1..] == [last];
    }
  }

  lemma {:induction false} FramedIsJoined(entries: seq<Entry>)
    requires entries != []
    ensures |Fields(entries)| >= 1 && Framed(entries) == Join(Fields(entries), NUL) + [NUL]
  {
    var n := |entries| - 1;
    FieldsAre(entries);
    var e := entries[n];
    if n == 0 {
      assert entries[..n] == [] && Fields(entries) == [e.kind, e.name];
      assert Fields(entries)[1..] == [e.name];
    } else {
      FramedIsJoined(entries[..n]);
      var fields := Fields(entries[..n]);
      assert Fields(entries) == (fields + [e.kind]) + [e.name];
      JoinSnoc(fields, NUL, e.kind);
      JoinSnoc(fields + [e.kind], NUL, e.name);
    }
  }

  lemma {:induction false} MapOfNames(entries: seq<Entry>, name: string)
    ensures name in MapOf(entries) <==> exists i :: 0 <= i < |entries| && entries[i].name == name
  {
    if entries != [] {
      MapOfNames(entries[..|entries| - 1], name);
    }
  }

  lemma {:induction false} CollectFields(entries: seq<Entry>)
    requires Proper(entries)
    ensures |Fields(entries)| % 2 == 0 && Collect(Fields(entries)) == Some(MapOf(entries))
  {
    FieldsAre(entries);
    if entries != [] {
      var n := |entries| - 1;
      CollectFields(entries[..n]);
      FieldsAre(entries[..n]);
      assert Fields(entries)[..2 * n] == Fields(entries[..n]);
      MapOfNames(entries[..n], entries[n].name);
    }
  }

  /** Reading undoes framing, for every listing. */
  lemma ListingRoundTrip(entries: seq<Entry>)
    requires Proper(entries)
    ensures Entries(Framed(entries), "") == Some(MapOf(entries))
  {
    if entries != [] {
      FramedIsJoined(entries);
      FieldsAre(entries);
      SplitJoin(Fields(entries), NUL);
      var out := Framed(entries);
      assert out[..|out| - 1] == Join(Fields(entries), NUL);
      CollectFields(entries);
    }
  }

  lemma {:induction false} FromFields(fields: seq<string>) returns (entries: seq<Entry>)
    requires |fields| % 2 == 0 && Plain(fields, NUL) && Collect(fields).Some?
    ensures Fields(entries) == fields && Proper(entries) && MapOf(entries) == Collect(fields).value
  {
    if fields == [] {
      entries := [];
    } else {
      var n := |fields| - 2;
      var before := FromFields(fields[..n]);
      entries := before + [Entry(fields[n], fields[n + 1])];
      assert entries[..|before|] == before;
      MapOfNames(before, fields[n + 1]);
      assert fields == fields[..n] + [fields[n], fields[n + 1]];
    }
  }

  /** Only framings are accepted, and what is returned is what they frame. */
  lemma OnlyListingsAreAccepted(stdout: string, stderr: string) returns (entries: seq<Entry>)
    requires Entries(stdout, stderr).Some?
    ensures stderr == "" && Proper(entries) && stdout == Framed(entries)
    ensures Entries(stdout, stderr) == Some(MapOf(entries))
  {
    if stdout == "" {
      entries := [];
    } else {
      var body := stdout[..|stdout| - 1];
      JoinSplit(body, NUL);
      entries := FromFields(Split(body, NUL));
      FramedIsJoined(entries);
      assert stdout == body + [NUL];
    }
  }

  // ----- batches -----

  /** The batches of a request list, in order. */
  function Chunks<T>(values: seq<T>): seq<seq<T>>
    decreases |values|
  {
    if values == [] then []
    else if |values| <= BATCH then [values]
    else [values[..BATCH]] + Chunks(values[BATCH..])
  }

  function Concat<T>(chunks: seq<seq<T>>): seq<T> {
    if chunks == [] then [] else chunks[0] + Concat(chunks[1..])
  }

  lemma {:induction false} ConcatSnoc<T>(chunks: seq<seq<T>>, last: seq<T>)
    ensures Concat(chunks + [last]) == Concat(chunks) + last
  {
    if chunks != [] {
      ConcatSnoc(chunks[1..], last);
      assert (chunks + [last])[1..] == chunks[1..] + [last];
    }
  }

  /** Batching loses, repeats and reorders nothing; batches are full except the last, and none is empty. */
  lemma {:induction false} ChunksPartition<T>(values: seq<T>)
    ensures Concat(Chunks(values)) == values
    ensures forall i :: 0 <= i < |Chunks(values)| ==> 0 < |Chunks(values)[i]| <= 96
    ensures forall i :: 0 <= i < |Chunks(values)| - 1 ==> |Chunks(values)[i]| == 96
    decreases |values|
  {
    if |values| > BATCH {
      ChunksPartition(values[BATCH..]);
      assert values[..BATCH] + values[BATCH..] == values;
    } else if values != [] {
      assert Concat([values]) == values + Concat([]);
    }
  }

  lemma {:induction false} ChunksOfPrefix<T>(values: seq<T>, n: nat)
    requires n % BATCH == 0 && n <= |values|
    ensures n < |values| ==>
              Chunks(values[..if n + BATCH <= |values| then n + BATCH else |values|])
              == Chunks(values[..n]) + [values[n..if n + BATCH <= |values| then n + BATCH else |values|]]
    decreases n
  {
    if n < |values| {
      var end := if n + BATCH <= |values| then n + BATCH else |values|;
      if n == 0 {
        assert values[..0] == [];
      } else {
        var rest := values[BATCH..];
        assert (n - BATCH) % BATCH == 0;
        ChunksOfPrefix(rest, n - BATCH);
        assert values[..end][BATCH..] == rest[..end - BATCH] && values[..end][..BATCH] == values[..BATCH];
        assert rest[n - BATCH..end - BATCH] == values[n..end];
        if n == BATCH {
          assert values[..n] == values[..BATCH] && rest[..0] == [];
        } else {
          assert values[..n][BATCH..] == rest[..n - BATCH] && values[..n][..BATCH] == values[..BATCH];
        }
      }
    }
  }

  method Batches<T>(values: seq<T>) returns (chunks: seq<seq<T>>)
    ensures chunks == Chunks(values)
  {
    chunks := [];
    var i := 0;
    assert values[..0] == [];
    while i < |values|
      invariant 0 <= i && (i < |values| ==> i % BATCH == 0)
      invariant chunks == Chunks(values[..if i <= |values| then i else |values|])
    {
      ChunksOfPrefix(values, i);
      var end := if i + BATCH <= |values| then i + BATCH else |values|;
      chunks := chunks + [values[i..end]];
      i := i + BATCH;
    }
    assert values[..|values|] == values;
  }
}
