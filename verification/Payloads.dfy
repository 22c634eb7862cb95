/** What one write contributes to its part: header removal for CSV, line termination for ndjson. */
module Payloads {

  newtype Byte = b: int | 0 <= b < 256

  type Bytes = seq<Byte>

  const LF: Byte := 10
  const CR: Byte := 13

  datatype Format = Ndjson(newline: Bytes) | Csv(hasHeader: bool) | Other

  // ── lines ─────────────────────────────────────────────────────────────────

  /** Length of the first line with its terminator: LF, CR or CR LF. */
  function LineLength(d: Bytes): (n: nat)
    ensures n <= |d| && (d != [] ==> n > 0)
  {
    if d == [] then 0
    else if d[0] == LF then 1
    else if d[0] == CR then (if |d| > 1 && d[1] == LF then 2 else 1)
    else 1 + LineLength(d[1..])
  }

  /** `splitlines(keepends=True)`. */
  function Lines(d: Bytes): seq<Bytes>
    decreases |d|
  {
    if d == [] then [] else [d[..LineLength(d)]] + Lines(d[LineLength(d)..])
  }

  function Join(lines: seq<Bytes>): Bytes {
    if lines == [] then [] else lines[0] + Join(lines[1..])
  }

  function FirstLine(d: Bytes): Bytes {
    d[..LineLength(d)]
  }

  function Body(d: Bytes): Bytes {
    d[LineLength(d)..]
  }

  predicate LineEndAt(d: Bytes, k: nat, n: nat) {
    || (k == n == |d|)
    || (n == k + 1 <= |d| && d[k] == LF)
    || (n == k + 1 <= |d| && d[k] == CR && (n < |d| ==> d[n] != LF))
    || (n == k + 2 <= |d| && d[k] == CR && d[k + 1] == LF)
  }

  /** The first line is text without LF or CR and then the first of LF, CR LF, CR alone, or the end. */
  lemma {:induction false} FirstLineEnds(d: Bytes) returns (k: nat)
    ensures k <= |d| && (forall i | 0 <= i < k :: d[i] != LF && d[i] != CR) && LineEndAt(d, k, |FirstLine(d)|)
    ensures FirstLine(d) + Body(d) == d
  {
    if d == [] || d[0] == LF || d[0] == CR {
      k := 0;
    } else {
      k := FirstLineEnds(d[1..]);
      k := k + 1;
    }
  }

  lemma LinesStep(d: Bytes)
    requires d != []
    ensures Lines(d) == [FirstLine(d)] + Lines(Body(d)) && Lines(d)[1..] == Lines(Body(d))
  {
  }

  lemma JoinStep(line: Bytes, lines: seq<Bytes>)
    ensures Join([line] + lines) == line + Join(lines)
  {
    assert ([line] + lines)[1..] == lines;
  }

  lemma {:induction false} JoinLines(d: Bytes)
    ensures Join(Lines(d)) == d
    decreases |d|
  {
    if d != [] {
      JoinLines(Body(d));
      LinesStep(d);
      JoinStep(FirstLine(d), Lines(Body(d)));
    }
  }

  // ── one payload ───────────────────────────────────────────────────────────

  predicate EndsWith(d: Bytes, end: Bytes) {
    |end| <= |d| && d[|d| - |end|..] == end
  }

  function Prepare(format: Format, data: Bytes, isNew: bool): Bytes {
    if data == [] then data else
      match format
      case Csv(hasHeader) =>
        if isNew || !hasHeader then data
        else if |Lines(data)| <= 1 then [] else Join(Lines(data)[1..])
      case Ndjson(newline) => if EndsWith(data, newline) then data else data + newline
      case Other => data
  }

  /** A later CSV write contributes everything after its first line. */
  lemma LaterCsvIsBody(data: Bytes)
    ensures Prepare(Csv(true), data, false) == Body(data)
  {
    if data != [] {
      LinesStep(data);
      JoinLines(Body(data));
    }
  }

  function NewlineSize(format: Format): nat {
    if format.Ndjson? then |format.newline| else 0
  }

  /** A payload outgrows its chunk by at most the newline; a part's opening payload is empty only for an empty chunk. */
  lemma PayloadSize(format: Format, data: Bytes, isNew: bool)
    ensures |Prepare(format, data, isNew)| <= |data| + NewlineSize(format)
    ensures data != [] && isNew ==> Prepare(format, data, isNew) != []
  {
    if format == Csv(true) && !isNew {
      LaterCsvIsBody(data);
    }
  }

  lemma NdjsonEndsInNewline(newline: Bytes, data: Bytes, isNew: bool)
    ensures var p := Prepare(Ndjson(newline), data, isNew); p == [] || EndsWith(p, newline)
  {
    var p := data + newline;
    assert p[|p| - |newline|..] == newline;
  }

  // ── a whole part ──────────────────────────────────────────────────────────

  /** The bytes of a part, from the chunks written to it; only the first is written as a new file. */
  function Content(format: Format, chunks: seq<Bytes>): Bytes {
    if chunks == [] then [] else
      var (init, last) := (chunks[..|chunks| - 1], chunks[|chunks| - 1]);
      Content(format, init) + Prepare(format, last, init == [])
  }

  function Concat(chunks: seq<Bytes>): Bytes {
    if chunks == [] then [] else Concat(chunks[..|chunks| - 1]) + chunks[|chunks| - 1]
  }

  function Bodies(chunks: seq<Bytes>): seq<Bytes> {
    seq(|chunks|, i requires 0 <= i < |chunks| => Body(chunks[i]))
  }

  lemma Reassociate<T>(a: seq<T>, b: seq<T>, c: seq<T>)
    ensures a + b + c == a + (b + c)
  {
  }

  lemma BodiesStep(chunks: seq<Bytes>)
    requires chunks != []
    ensures var (init, last) := (chunks[..|chunks| - 1], chunks[|chunks| - 1]);
            Concat(Bodies(chunks)) == Concat(Bodies(init)) + Body(last)
  {
    assert Bodies(chunks)[..|chunks| - 1] == Bodies(chunks[..|chunks| - 1]);
  }

  lemma ContentStep(format: Format, chunks: seq<Bytes>)
    requires chunks != []
    ensures var (init, last) := (chunks[..|chunks| - 1], chunks[|chunks| - 1]);
            Content(format, chunks) == Content(format, init) + Prepare(format, last, init == [])
  {
  }

  /** By physical lines, a CSV part is the first line of its opening chunk and then all other lines of its chunks. */
  lemma {:induction false} CsvPartByLines(chunks: seq<Bytes>)
    requires chunks != []
    ensures Content(Csv(true), chunks) == FirstLine(chunks[0]) + Concat(Bodies(chunks))
  {
    var (init, last) := (chunks[..|chunks| - 1], chunks[|chunks| - 1]);
    BodiesStep(chunks);
    ContentStep(Csv(true), chunks);
    if init == [] {
      assert Content(Csv(true), init) == [] && Concat(Bodies(init)) == [];
    } else {
      CsvPartByLines(init);
      LaterCsvIsBody(last);
      Reassociate(FirstLine(chunks[0]), Concat(Bodies(init)), Body(last));
    }
  }

  // ── formats without a header ──────────────────────────────────────────────

  lemma EndsWithIff(d: Bytes, end: Bytes)
    ensures EndsWith(d, end) <==> exists front: Bytes :: d == front + end
  {
    if EndsWith(d, end) {
      assert d == d[..|d| - |end|] + end;
    }
    if front: Bytes :| d == front + end {
      assert d[|d| - |end|..] == end;
    }
  }

  /** A chunk in lines: followed by the newline where it is not empty and lacks it. */
  function Terminated(nl: Bytes, d: Bytes): (r: Bytes)
    ensures r == d || (r == d + nl && d != [])
    ensures r == [] || EndsWith(r, nl)
  {
    if d == [] || EndsWith(d, nl) then d else
      assert (d + nl)[|d|..] == nl;
      d + nl
  }

  /** A chunk as it stands in a file that strips no header: whole, or in lines for ndjson. */
  function AsWritten(format: Format, d: Bytes): Bytes {
    if format.Ndjson? then Terminated(format.newline, d) else d
  }

  function AllWritten(format: Format, chunks: seq<Bytes>): seq<Bytes> {
    seq(|chunks|, i requires 0 <= i < |chunks| => AsWritten(format, chunks[i]))
  }

  lemma {:induction false} ConcatOfWritten(format: Format, chunks: seq<Bytes>)
    requires format != Csv(true)
    ensures Content(format, chunks) == Concat(AllWritten(format, chunks))
  {
    if chunks != [] {
      ConcatOfWritten(format, chunks[..|chunks| - 1]);
      assert AllWritten(format, chunks)[..|chunks| - 1] == AllWritten(format, chunks[..|chunks| - 1]);
    }
  }

  lemma PlainChunks(format: Format, chunks: seq<Bytes>)
    requires format == Csv(false) || format == Other
    ensures AllWritten(format, chunks) == chunks
  {
  }

  /** A part without header handling is byte for byte the concatenation of its chunks. */
  lemma PlainPartIsConcat(format: Format, chunks: seq<Bytes>)
    requires format == Csv(false) || format == Other
    ensures Content(format, chunks) == Concat(chunks)
  {
    ConcatOfWritten(format, chunks);
    PlainChunks(format, chunks);
  }

  lemma {:induction false} ConcatJoins(a: seq<Bytes>, b: seq<Bytes>)
    ensures Concat(a + b) == Concat(a) + Concat(b)
  {
    if b == [] {
      assert a + b == a;
    } else {
      var (init, last) := (b[..|b| - 1], b[|b| - 1]);
      ConcatJoins(a, init);
      assert (a + b)[..|a + b| - 1] == a + init && (a + b)[|a + b| - 1] == last;
      Reassociate(Concat(a), Concat(init), last);
    }
  }

  lemma ContentOfTwo(format: Format, a: Bytes, b: Bytes)
    ensures Content(format, [a, b]) == Prepare(format, a, true) + Prepare(format, b, false)
  {
    assert [a, b][..1] == [a] && [a][..0] == [];
    assert Content(format, [a]) == Prepare(format, a, true);
  }

  // ── ndjson records ────────────────────────────────────────────────────────

  predicate At(s: Bytes, nl: Bytes, i: int) {
    0 <= i && i + |nl| <= |s| && s[i..i + |nl|] == nl
  }

  /** First newline at or after `from`, or -1. */
  function Find(s: Bytes, nl: Bytes, from: nat): (i: int)
    ensures i >= 0 ==> i >= from && At(s, nl, i)
    ensures forall j | from <= j && (i < 0 || j < i) :: !At(s, nl, j)
    decreases |s| - from
  {
    if from >= |s| + 1 then -1
    else if At(s, nl, from) then from else Find(s, nl, from + 1)
  }

  /**
   How a reader that knows the newline takes a file apart: records end at a newline, and the last
   one may lack it.  With an empty newline there is nothing to split at.
   */
  function Records(s: Bytes, nl: Bytes): seq<Bytes>
    decreases |s|
  {
    if s == [] then [] else if nl == [] then [s] else
      var i := Find(s, nl, 0);
      if i < 0 then [s] else [s[..i]] + Records(s[i + |nl|..], nl)
  }

  /** Some proper prefix of the newline is also its suffix, so two newlines can overlap. */
  predicate Bordered(nl: Bytes) {
    exists k | 0 < k < |nl| :: nl[..k] == nl[|nl| - k..]
  }

  lemma OverlapIsBorder(s: Bytes, nl: Bytes, i: int, j: int)
    requires At(s, nl, i) && At(s, nl, j) && i < j < i + |nl|
    ensures Bordered(nl)
  {
    var k := i + |nl| - j;
    assert nl[..k] == s[j..j + |nl|][..k] == s[j..j + k];
    assert nl[|nl| - k..] == s[i..i + |nl|][|nl| - k..] == s[j..j + k];
  }

  lemma AtInFront(a: Bytes, b: Bytes, nl: Bytes, j: int)
    requires j + |nl| <= |a|
    ensures At(a + b, nl, j) <==> At(a, nl, j)
  {
    if 0 <= j {
      assert (a + b)[j..j + |nl|] == a[j..j + |nl|];
    }
  }

  predicate FirstAt(s: Bytes, nl: Bytes, i: int) {
    At(s, nl, i) && forall j | 0 <= j < i :: !At(s, nl, j)
  }

  lemma RecordsStep(s: Bytes, nl: Bytes, i: int)
    requires nl != [] && FirstAt(s, nl, i)
    ensures Records(s, nl) == [s[..i]] + Records(s[i + |nl|..], nl)
  {
    assert Find(s, nl, 0) == i;
  }

  lemma FirstInFront(a: Bytes, b: Bytes, nl: Bytes, i: int)
    requires FirstAt(a, nl, i)
    ensures FirstAt(a + b, nl, i)
    ensures (a + b)[..i] == a[..i] && (a + b)[i + |nl|..] == a[i + |nl|..] + b
  {
    AtInFront(a, b, nl, i);
    forall j | 0 <= j < i ensures !At(a + b, nl, j) {
      AtInFront(a, b, nl, j);
    }
  }

  lemma FirstExists(s: Bytes, nl: Bytes, e: int) returns (i: int)
    requires At(s, nl, e)
    ensures FirstAt(s, nl, i) && i <= e
  {
    i := Find(s, nl, 0);
  }

  lemma EndAfterFirst(a: Bytes, nl: Bytes, i: int)
    requires nl != [] && !Bordered(nl) && EndsWith(a, nl) && FirstAt(a, nl, i)
    ensures a[i + |nl|..] == [] || EndsWith(a[i + |nl|..], nl)
  {
    var e := |a| - |nl|;
    assert At(a, nl, e);
    if i < e < i + |nl| {
      OverlapIsBorder(a, nl, i, e);
    } else if i + |nl| <= e {
      assert a[i + |nl|..][e - i - |nl|..] == a[e..];
    }
  }

  /** Appending to terminated text keeps every record of both, unless newlines can overlap. */
  lemma {:induction false} RecordsConcat(a: Bytes, b: Bytes, nl: Bytes)
    requires nl != [] && !Bordered(nl) && (a == [] || EndsWith(a, nl))
    ensures Records(a + b, nl) == Records(a, nl) + Records(b, nl)
    decreases |a|
  {
    if a == [] {
      assert a + b == b;
    } else {
      var i := FirstExists(a, nl, |a| - |nl|);
      EndAfterFirst(a, nl, i);
      FirstInFront(a, b, nl, i);
      RecordsConcat(a[i + |nl|..], b, nl);
      RecordsStep(a, nl, i);
      RecordsStep(a + b, nl, i);
      Reassociate([a[..i]], Records(a[i + |nl|..], nl), Records(b, nl));
    }
  }

  lemma FirstAtEnd(d: Bytes, nl: Bytes)
    requires nl != [] && !Bordered(nl) && Find(d, nl, 0) < 0
    ensures FirstAt(d + nl, nl, |d|)
  {
    forall j | 0 <= j < |d| ensures !At(d + nl, nl, j) {
      if j + |nl| <= |d| {
        AtInFront(d, nl, nl, j);
      } else if At(d + nl, nl, j) {
        OverlapIsBorder(d + nl, nl, j, |d|);
      }
    }
  }

  lemma StillUnterminated(d: Bytes, nl: Bytes, i: int)
    requires nl != [] && !EndsWith(d, nl) && At(d, nl, i)
    ensures var rest := d[i + |nl|..]; rest != [] && !EndsWith(rest, nl)
  {
    var rest := d[i + |nl|..];
    if |nl| <= |rest| {
      assert rest[|rest| - |nl|..] == d[|d| - |nl|..];
    }
  }

  /** Terminating a chunk's last record adds no record and changes none. */
  lemma {:induction false} RecordsTerminated(d: Bytes, nl: Bytes)
    requires nl != [] && !Bordered(nl) && d != [] && !EndsWith(d, nl)
    ensures Records(d + nl, nl) == Records(d, nl)
    decreases |d|
  {
    if Find(d, nl, 0) < 0 {
      FirstAtEnd(d, nl);
      RecordsStep(d + nl, nl, |d|);
      assert (d + nl)[..|d|] == d && (d + nl)[|d| + |nl|..] == [];
    } else {
      var i := FirstExists(d, nl, Find(d, nl, 0));
      StillUnterminated(d, nl, i);
      FirstInFront(d, nl, nl, i);
      RecordsTerminated(d[i + |nl|..], nl);
      RecordsStep(d, nl, i);
      RecordsStep(d + nl, nl, i);
    }
  }

  function AllRecords(chunks: seq<Bytes>, nl: Bytes): seq<Bytes> {
    if chunks == [] then [] else AllRecords(chunks[..|chunks| - 1], nl) + Records(chunks[|chunks| - 1], nl)
  }

  lemma PreparedRecords(data: Bytes, nl: Bytes, isNew: bool)
    requires nl != [] && !Bordered(nl)
    ensures Records(Prepare(Ndjson(nl), data, isNew), nl) == Records(data, nl)
  {
    if data != [] && !EndsWith(data, nl) {
      RecordsTerminated(data, nl);
    }
  }

  lemma EndsWithAppended(a: Bytes, p: Bytes, nl: Bytes)
    requires (a == [] || EndsWith(a, nl)) && (p == [] || EndsWith(p, nl))
    ensures a + p == [] || EndsWith(a + p, nl)
  {
    if p == [] {
      assert a + p == a;
    } else {
      assert (a + p)[|a + p| - |nl|..] == p[|p| - |nl|..];
    }
  }

  /** Reading an ndjson part back gives the records of its chunks, in order: none lost, none fused. */
  lemma {:induction false} NdjsonPartKeepsRecords(chunks: seq<Bytes>, nl: Bytes)
    requires nl != [] && !Bordered(nl)
    ensures Records(Content(Ndjson(nl), chunks), nl) == AllRecords(chunks, nl)
    ensures var s := Content(Ndjson(nl), chunks); s == [] || EndsWith(s, nl)
  {
    if chunks != [] {
      var (init, last) := (chunks[..|chunks| - 1], chunks[|chunks| - 1]);
      NdjsonPartKeepsRecords(init, nl);
      NdjsonEndsInNewline(nl, last, init == []);
      PreparedRecords(last, nl, init == []);
      RecordsConcat(Content(Ndjson(nl), init), Prepare(Ndjson(nl), last, init == []), nl);
      EndsWithAppended(Content(Ndjson(nl), init), Prepare(Ndjson(nl), last, init == []), nl);
    }
  }

  /** Every two ndjson chunks written to one part read back as their own records. */
  ghost predicate KeepsRecords(nl: Bytes) {
    forall a: Bytes, b: Bytes :: Records(Content(Ndjson(nl), [a, b]), nl) == Records(a, nl) + Records(b, nl)
  }

  lemma RecordsOfNewline(nl: Bytes)
    requires nl != []
    ensures Records(nl, nl) == [[]]
  {
    RecordsStep(nl, nl, 0);
    assert nl[|nl|..] == [];
  }

  lemma RecordsOfShort(d: Bytes, nl: Bytes)
    requires 0 < |d| < |nl|
    ensures Records(d, nl) == [d]
  {
    assert !At(d, nl, Find(d, nl, 0));
  }

  lemma SecondRecordShorter(rest: Bytes, nl: Bytes)
    requires 0 < |rest| < |nl|
    ensures Records(rest + nl, nl) != [rest, []]
  {
    var s := rest + nl;
    assert At(s, nl, |rest|);
    var j := FirstExists(s, nl, |rest|);
    RecordsStep(s, nl, j);
    if j == |rest| {
      assert s[j + |nl|..] == [];
      assert |Records(s, nl)| == 1;
    } else {
      assert |Records(s, nl)[0]| == j;
    }
  }

  function Overlapped(nl: Bytes, k: nat): Bytes
    requires k <= |nl|
  {
    nl[..|nl| - k] + nl
  }

  lemma OverlappedStarts(nl: Bytes, k: nat)
    requires 0 < k < |nl| && nl[..k] == nl[|nl| - k..]
    ensures Overlapped(nl, k) == nl + nl[k..]
  {
    assert nl == nl[..k] + nl[k..] && nl == nl[..|nl| - k] + nl[|nl| - k..];
  }

  lemma RecordsAfterNewline(nl: Bytes, rest: Bytes)
    requires nl != []
    ensures Records(nl + rest, nl) == [[]] + Records(rest, nl)
  {
    var s := nl + rest;
    assert s[..|nl|] == nl && s[|nl|..] == rest && s[..0] == [];
    RecordsStep(s, nl, 0);
  }

  lemma OverlappedAlone(nl: Bytes, k: nat)
    requires 0 < k < |nl| && nl[..k] == nl[|nl| - k..]
    ensures Records(Overlapped(nl, k), nl) == [[]] + [nl[k..]]
  {
    OverlappedStarts(nl, k);
    RecordsAfterNewline(nl, nl[k..]);
    RecordsOfShort(nl[k..], nl);
  }

  lemma OverlappedBefore(nl: Bytes, rest: Bytes, next: Bytes)
    requires nl != []
    ensures Records(nl + rest + next, nl) == [[]] + Records(rest + next, nl)
  {
    Reassociate(nl, rest, next);
    RecordsAfterNewline(nl, rest + next);
  }

  lemma StillDifferent(rest: Bytes, found: seq<Bytes>)
    requires found != [rest, []]
    ensures [[]] + found != [[]] + [rest] + [[]]
  {
    assert ([[]] + found)[1..] == found && ([[]] + [rest] + [[]])[1..] == [rest, []];
  }

  /**
   A newline with a border breaks it: the chunk below ends in the newline and is written as is,
   yet its reader finds an earlier, overlapping newline and takes the rest into the next chunk.
   */
  lemma BorderedFuses(nl: Bytes, k: nat)
    requires 0 < k < |nl| && nl[..k] == nl[|nl| - k..]
    ensures Records(Overlapped(nl, k) + nl, nl) != Records(Overlapped(nl, k), nl) + Records(nl, nl)
  {
    var rest := nl[k..];
    OverlappedStarts(nl, k);
    OverlappedBefore(nl, rest, nl);
    OverlappedAlone(nl, k);
    RecordsOfNewline(nl);
    SecondRecordShorter(rest, nl);
    StillDifferent(rest, Records(rest + nl, nl));
  }

  lemma TwoChunksKeepRecords(nl: Bytes, a: Bytes, b: Bytes)
    requires nl != [] && !Bordered(nl)
    ensures Records(Content(Ndjson(nl), [a, b]), nl) == Records(a, nl) + Records(b, nl)
  {
    ContentOfTwo(Ndjson(nl), a, b);
    NdjsonEndsInNewline(nl, a, true);
    RecordsConcat(Prepare(Ndjson(nl), a, true), Prepare(Ndjson(nl), b, false), nl);
    PreparedRecords(a, nl, true);
    PreparedRecords(b, nl, false);
  }

  lemma BorderedBreaks(nl: Bytes, k: nat)
    requires 0 < k < |nl| && nl[..k] == nl[|nl| - k..]
    ensures !KeepsRecords(nl)
  {
    var a := Overlapped(nl, k);
    BorderedFuses(nl, k);
    ContentOfTwo(Ndjson(nl), a, nl);
    assert EndsWith(a, nl) && EndsWith(nl, nl) by { assert a[|a| - |nl|..] == nl; }
    assert Records(Content(Ndjson(nl), [a, nl]), nl) != Records(a, nl) + Records(nl, nl);
  }

  /** With an empty newline nothing is appended and any two non-empty chunks become one record. */
  lemma EmptyNewlineFuses(a: Bytes, b: Bytes)
    requires a != [] && b != []
    ensures Content(Ndjson([]), [a, b]) == a + b
    ensures Records(Content(Ndjson([]), [a, b]), []) == [a + b] && Records(a, []) + Records(b, []) == [a, b]
    ensures !KeepsRecords([])
  {
    ContentOfTwo(Ndjson([]), a, b);
    assert EndsWith(a, []) && EndsWith(b, []);
    assert |[a + b]| != |[a, b]|;
  }

  /** Records survive concatenation for every pair of chunks exactly when the newline is not empty and has no border. */
  lemma RecordsSurviveIff(nl: Bytes)
    ensures KeepsRecords(nl) <==> nl != [] && !Bordered(nl)
  {
    if nl == [] {
      EmptyNewlineFuses([LF], [LF]);
    } else if Bordered(nl) {
      var k :| 0 < k < |nl| && nl[..k] == nl[|nl| - k..];
      BorderedBreaks(nl, k);
    } else {
      forall a: Bytes, b: Bytes
        ensures Records(Content(Ndjson(nl), [a, b]), nl) == Records(a, nl) + Records(b, nl)
      {
        TwoChunksKeepRecords(nl, a, b);
      }
    }
  }
}
