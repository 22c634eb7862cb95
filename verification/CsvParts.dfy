/**
 CSV parts as a reader sees them.  A record ends at a line terminator outside quotes, so a header
 may span several lines, while the writer drops exactly one line of every later chunk.
 */
module CsvParts {
  import opened Payloads

  // ── records ───────────────────────────────────────────────────────────────

  /** Length of the record that starts here, with its terminator; `quoted` is the parity of quotes so far. */
  function Scan(d: Bytes, q: Byte, quoted: bool): (n: nat)
    ensures n <= |d| && (d != [] ==> n > 0)
  {
    if d == [] then 0
    else if d[0] == q then 1 + Scan(d[1..], q, !quoted)
    else if quoted then 1 + Scan(d[1..], q, true)
    else if d[0] == LF then 1
    else if d[0] == CR then (if |d| > 1 && d[1] == LF then 2 else 1)
    else 1 + Scan(d[1..], q, false)
  }

  /** Whether that record has its terminator, or runs to the end of the text. */
  predicate Ends(d: Bytes, q: Byte, quoted: bool) {
    d != [] && (if d[0] == q then Ends(d[1..], q, !quoted)
                else if quoted then Ends(d[1..], q, true)
                else d[0] == LF || d[0] == CR || Ends(d[1..], q, false))
  }

  function RecordLength(d: Bytes, q: Byte): nat {
    Scan(d, q, false)
  }

  /** The records of a text, each with its terminator. */
  function CsvRecords(s: Bytes, q: Byte): seq<Bytes>
    decreases |s|
  {
    if s == [] then [] else
      var n := Scan(s, q, false);
      [s[..n]] + CsvRecords(s[n..], q)
  }

  /** The text is empty or its last record is terminated. */
  predicate Closed(s: Bytes, q: Byte)
    decreases |s|
  {
    s == [] || (Ends(s, q, false) && Closed(s[Scan(s, q, false)..], q))
  }

  predicate SplitsCrLf(a: Bytes, b: Bytes) {
    a != [] && b != [] && a[|a| - 1] == CR && b[0] == LF
  }

  /** Appending `b` starts a new record: `a` ends at a record boundary and no CR LF is put together. */
  predicate Aligned(a: Bytes, b: Bytes, q: Byte) {
    a == [] || b == [] || (Closed(a, q) && !SplitsCrLf(a, b))
  }

  // ── scanning a longer text ────────────────────────────────────────────────

  lemma {:induction false} ScanRunsOn(a: Bytes, b: Bytes, q: Byte, quoted: bool)
    requires !Ends(a, q, quoted)
    ensures Scan(a, q, quoted) == |a| && (b != [] ==> Scan(a + b, q, quoted) > |a|)
  {
    if a == [] {
      assert a + b == b;
    } else {
      assert (a + b)[1..] == a[1..] + b;
      ScanRunsOn(a[1..], b, q, if a[0] == q then !quoted else quoted);
    }
  }

  lemma {:induction false} ScanInFront(a: Bytes, b: Bytes, q: Byte, quoted: bool)
    requires Ends(a, q, quoted)
    requires Scan(a, q, quoted) == |a| ==> !SplitsCrLf(a, b)
    ensures Scan(a + b, q, quoted) == Scan(a, q, quoted) && Ends(a + b, q, quoted)
  {
    assert (a + b)[1..] == a[1..] + b;
    if a[0] == q || quoted || (a[0] != LF && a[0] != CR) {
      ScanInFront(a[1..], b, q, if a[0] == q then !quoted else quoted);
    }
  }

  lemma {:induction false} ScanMerges(a: Bytes, b: Bytes, q: Byte, quoted: bool)
    requires Ends(a, q, quoted) && Scan(a, q, quoted) == |a| && SplitsCrLf(a, b)
    ensures Scan(a + b, q, quoted) == |a| + 1
  {
    assert (a + b)[1..] == a[1..] + b;
    if |a| > 1 {
      ScanMerges(a[1..], b, q, if a[0] == q then !quoted else quoted);
    }
  }

  lemma {:induction false} ScanAtMost(d: Bytes, q: Byte, quoted: bool)
    ensures LineLength(d) <= Scan(d, q, quoted)
  {
    if d != [] {
      ScanAtMost(d[1..], q, if d[0] == q then !quoted else quoted);
    }
  }

  /** A terminated record stands by itself, and is not followed by the LF of its own CR. */
  lemma {:induction false} ScanAlone(s: Bytes, q: Byte, quoted: bool)
    requires Ends(s, q, quoted)
    ensures var n := Scan(s, q, quoted);
            && Ends(s[..n], q, quoted) && Scan(s[..n], q, quoted) == n
            && !SplitsCrLf(s[..n], s[n..])
  {
    var n := Scan(s, q, quoted);
    if s[0] == q || quoted || (s[0] != LF && s[0] != CR) {
      var next := if s[0] == q then !quoted else quoted;
      ScanAlone(s[1..], q, next);
      assert s[..n][1..] == s[1..][..n - 1] && s[1..][n - 1..] == s[n..];
    }
  }

  // ── when two texts read as their own records ──────────────────────────────

  lemma CsvRecordsStep(s: Bytes, q: Byte)
    requires s != []
    ensures var n := RecordLength(s, q); CsvRecords(s, q) == [s[..n]] + CsvRecords(s[n..], q)
  {
  }

  lemma RestOfConcat(a: Bytes, b: Bytes, n: nat)
    requires n <= |a|
    ensures (a + b)[..n] == a[..n] && (a + b)[n..] == a[n..] + b
  {
  }

  lemma SameHead<T>(x: T, r: seq<T>, s: seq<T>)
    ensures [x] + r == [x] + s <==> r == s
  {
    assert ([x] + r)[1..] == r && ([x] + s)[1..] == s;
  }

  lemma LongerFirst(a: Bytes, b: Bytes, q: Byte, rest: seq<Bytes>)
    requires RecordLength(a + b, q) > |a|
    ensures CsvRecords(a + b, q) != [a] + rest
  {
    CsvRecordsStep(a + b, q);
    assert |CsvRecords(a + b, q)[0]| > |a| && ([a] + rest)[0] == a;
  }

  lemma WholeRecordIff(a: Bytes, b: Bytes, q: Byte)
    requires a != [] && b != [] && RecordLength(a, q) == |a|
    ensures CsvRecords(a, q) == [a]
    ensures CsvRecords(a + b, q) == CsvRecords(a, q) + CsvRecords(b, q) <==> Aligned(a, b, q)
  {
    assert a[..|a|] == a && a[|a|..] == [];
    CsvRecordsStep(a, q);
    if !Ends(a, q, false) {
      ScanRunsOn(a, b, q, false);
      LongerFirst(a, b, q, CsvRecords(b, q));
    } else if SplitsCrLf(a, b) {
      ScanMerges(a, b, q, false);
      LongerFirst(a, b, q, CsvRecords(b, q));
    } else {
      ScanInFront(a, b, q, false);
      RestOfConcat(a, b, |a|);
      CsvRecordsStep(a + b, q);
      assert a[|a|..] + b == b;
      assert Closed(a, q) && Aligned(a, b, q);
    }
  }

  lemma FirstRecordOff(a: Bytes, b: Bytes, q: Byte)
    requires a != [] && RecordLength(a, q) < |a|
    ensures var n := RecordLength(a, q);
            && CsvRecords(a + b, q) == [a[..n]] + CsvRecords(a[n..] + b, q)
            && (Closed(a, q) <==> Closed(a[n..], q))
  {
    var n := RecordLength(a, q);
    if !Ends(a, q, false) {
      ScanRunsOn(a, b, q, false);
    }
    ScanInFront(a, b, q, false);
    RestOfConcat(a, b, n);
    CsvRecordsStep(a + b, q);
  }

  /** The records of `a + b` are those of `a` followed by those of `b` exactly when `b` starts a new record. */
  lemma {:induction false} RecordsConcatIff(a: Bytes, b: Bytes, q: Byte)
    ensures CsvRecords(a + b, q) == CsvRecords(a, q) + CsvRecords(b, q) <==> Aligned(a, b, q)
    decreases |a|
  {
    var n := RecordLength(a, q);
    if a == [] {
      assert a + b == b;
    } else if b == [] {
      assert a + b == a;
    } else if n == |a| {
      WholeRecordIff(a, b, q);
    } else {
      FirstRecordOff(a, b, q);
      RecordsConcatIff(a[n..], b, q);
      CsvRecordsStep(a, q);
      Reassociate([a[..n]], CsvRecords(a[n..], q), CsvRecords(b, q));
      SameHead(a[..n], CsvRecords(a[n..] + b, q), CsvRecords(a[n..], q) + CsvRecords(b, q));
    }
  }

  // ── records and their text ────────────────────────────────────────────────

  lemma {:induction false} JoinRecords(s: Bytes, q: Byte)
    ensures Join(CsvRecords(s, q)) == s
    decreases |s|
  {
    if s != [] {
      var n := RecordLength(s, q);
      JoinRecords(s[n..], q);
      CsvRecordsStep(s, q);
      JoinStep(s[..n], CsvRecords(s[n..], q));
    }
  }

  lemma {:induction false} JoinConcat(x: seq<Bytes>, y: seq<Bytes>)
    ensures Join(x + y) == Join(x) + Join(y)
  {
    if x == [] {
      assert x + y == y;
    } else {
      JoinConcat(x[1..], y);
      assert x + y == [x[0]] + (x[1..] + y);
      JoinStep(x[0], x[1..] + y);
      Reassociate(x[0], Join(x[1..]), Join(y));
    }
  }

  /** A leading part of a text's records is read the same when it stands alone. */
  lemma {:induction false} LeadingRecords(s: Bytes, x: seq<Bytes>, y: seq<Bytes>, q: Byte)
    requires CsvRecords(s, q) == x + y
    ensures CsvRecords(Join(x), q) == x
    decreases |s|
  {
    if x != [] {
      var n := RecordLength(s, q);
      CsvRecordsStep(s, q);
      assert x[0] == s[..n] && x[1..] + y == CsvRecords(s[n..], q) by {
        assert (x + y)[0] == x[0] && (x + y)[1..] == x[1..] + y;
      }
      LeadingRecords(s[n..], x[1..], y, q);
      LeadingStep(s, x, y, q);
    }
  }

  /** The first record of `s` keeps its length when only a beginning of what follows it is left. */
  lemma FirstRecordKept(s: Bytes, rest: Bytes, q: Byte)
    requires s != [] && rest <= s[RecordLength(s, q)..]
    ensures var n := RecordLength(s, q); RecordLength(s[..n] + rest, q) == n
  {
    var n := RecordLength(s, q);
    if Ends(s, q, false) {
      ScanAlone(s, q, false);
      assert rest != [] ==> rest[0] == s[n..][0];
      ScanInFront(s[..n], rest, q, false);
    } else {
      ScanRunsOn(s, [], q, false);
      assert s[n..] == [] && s[..n] + rest == s;
    }
  }

  lemma LeadingText(s: Bytes, x: seq<Bytes>, y: seq<Bytes>, q: Byte)
    requires x + y == CsvRecords(s, q)
    ensures Join(x) <= s
  {
    JoinRecords(s, q);
    JoinConcat(x, y);
  }

  lemma LeadingStep(s: Bytes, x: seq<Bytes>, y: seq<Bytes>, q: Byte)
    requires s != [] && x != [] && x[0] == s[..RecordLength(s, q)]
    requires x[1..] + y == CsvRecords(s[RecordLength(s, q)..], q)
    requires CsvRecords(Join(x[1..]), q) == x[1..]
    ensures CsvRecords(Join(x), q) == x
  {
    var n := RecordLength(s, q);
    var (first, rest) := (s[..n], Join(x[1..]));
    LeadingText(s[n..], x[1..], y, q);
    FirstRecordKept(s, rest, q);
    RestOfConcat(first, rest, n);
    CsvRecordsStep(first + rest, q);
    assert first[..n] == first && first[n..] + rest == rest;
    assert x == [x[0]] + x[1..];
  }

  // ── a whole part ──────────────────────────────────────────────────────────

  function RowsOf(d: Bytes, q: Byte): seq<Bytes> {
    if d == [] then [] else CsvRecords(d[RecordLength(d, q)..], q)
  }

  /** What the part should read as: header and rows of the opening chunk, then the rows of every later chunk. */
  function Expected(chunks: seq<Bytes>, q: Byte): seq<Bytes>
    requires chunks != []
  {
    if |chunks| == 1 then CsvRecords(chunks[0], q)
    else Expected(chunks[..|chunks| - 1], q) + RowsOf(chunks[|chunks| - 1], q)
  }

  /** The chunk's header record is its first line. */
  predicate OneLineHeader(d: Bytes, q: Byte) {
    RecordLength(d, q) == LineLength(d)
  }

  /** Each later chunk has a one-line header, and its rows are appended at a record boundary. */
  predicate WellAppended(chunks: seq<Bytes>, q: Byte) {
    forall i | 0 < i < |chunks| :: AppendsWell(chunks[..i], chunks[i], q)
  }

  predicate AppendsWell(before: seq<Bytes>, d: Bytes, q: Byte) {
    OneLineHeader(d, q) && Aligned(Content(Csv(true), before), Body(d), q)
  }

  predicate ReadsBack(chunks: seq<Bytes>, q: Byte)
    requires chunks != []
  {
    CsvRecords(Content(Csv(true), chunks), q) == Expected(chunks, q)
  }

  lemma RowsText(d: Bytes, q: Byte)
    ensures |Join(RowsOf(d, q))| == |d| - RecordLength(d, q)
    ensures |Join(RowsOf(d, q))| <= |Body(d)|
    ensures OneLineHeader(d, q) ==> RowsOf(d, q) == CsvRecords(Body(d), q)
    ensures |Join(RowsOf(d, q))| == |Body(d)| ==> OneLineHeader(d, q)
  {
    ScanAtMost(d, q, false);
    if d != [] {
      JoinRecords(d[RecordLength(d, q)..], q);
    }
  }

  lemma AppendedContent(chunks: seq<Bytes>)
    requires |chunks| > 1
    ensures Content(Csv(true), chunks) == Content(Csv(true), chunks[..|chunks| - 1]) + Body(chunks[|chunks| - 1])
  {
    ContentStep(Csv(true), chunks);
    LaterCsvIsBody(chunks[|chunks| - 1]);
  }

  lemma ContentOfOne(d: Bytes)
    ensures Content(Csv(true), [d]) == d
  {
    assert [d][..0] == [];
    assert Content(Csv(true), []) + Prepare(Csv(true), d, true) == d;
  }

  lemma {:induction false} ExpectedNoLonger(chunks: seq<Bytes>, q: Byte)
    requires chunks != []
    ensures |Join(Expected(chunks, q))| <= |Content(Csv(true), chunks)|
  {
    if |chunks| == 1 {
      assert chunks == [chunks[0]];
      ContentOfOne(chunks[0]);
      JoinRecords(chunks[0], q);
    } else {
      var (init, d) := (chunks[..|chunks| - 1], chunks[|chunks| - 1]);
      ExpectedNoLonger(init, q);
      JoinConcat(Expected(init, q), RowsOf(d, q));
      RowsText(d, q);
      AppendedContent(chunks);
    }
  }

  lemma WellAppendedInit(init: seq<Bytes>, d: Bytes, q: Byte)
    requires init != []
    ensures WellAppended(init + [d], q) <==> WellAppended(init, q) && AppendsWell(init, d, q)
  {
    var chunks := init + [d];
    assert chunks[..|init|] == init && chunks[|init|] == d;
    forall i | 0 < i < |init| ensures init[i] == chunks[i] && init[..i] == chunks[..i] {
    }
    if WellAppended(chunks, q) {
      forall i | 0 < i < |init| ensures AppendsWell(init[..i], init[i], q) {
        assert AppendsWell(chunks[..i], chunks[i], q);
      }
      assert AppendsWell(chunks[..|init|], chunks[|init|], q);
    }
    if WellAppended(init, q) && AppendsWell(init, d, q) {
      forall i | 0 < i < |chunks| ensures AppendsWell(chunks[..i], chunks[i], q) {
        if i < |init| {
          assert AppendsWell(init[..i], init[i], q);
        }
      }
    }
  }

  /** From the whole part's records to those of the part before its last chunk. */
  lemma UnappendRecords(a: Bytes, d: Bytes, x: seq<Bytes>, q: Byte)
    requires CsvRecords(a + Body(d), q) == x + RowsOf(d, q) && |Join(x)| <= |a|
    ensures OneLineHeader(d, q) && CsvRecords(a, q) == x && Aligned(a, Body(d), q)
  {
    JoinRecords(a + Body(d), q);
    JoinConcat(x, RowsOf(d, q));
    RowsText(d, q);
    assert Join(x) == a by {
      assert Join(x) == (Join(x) + Join(RowsOf(d, q)))[..|a|] && (a + Body(d))[..|a|] == a;
    }
    LeadingRecords(a + Body(d), x, RowsOf(d, q), q);
    RecordsConcatIff(a, Body(d), q);
  }

  /**
   A CSV part reads as the header of its opening chunk, that chunk's rows and the rows of every
   later chunk, exactly when each later chunk has a one-line header and is appended at a record
   boundary.
   */
  lemma {:induction false} ReadsBackIff(chunks: seq<Bytes>, q: Byte)
    requires chunks != []
    ensures ReadsBack(chunks, q) <==> WellAppended(chunks, q)
  {
    if |chunks| == 1 {
      assert chunks == [chunks[0]];
      ContentOfOne(chunks[0]);
    } else {
      var (init, d) := (chunks[..|chunks| - 1], chunks[|chunks| - 1]);
      var a := Content(Csv(true), init);
      ReadsBackIff(init, q);
      AppendedContent(chunks);
      WellAppendedInit(init, d, q);
      assert chunks == init + [d];
      if ReadsBack(chunks, q) {
        ExpectedNoLonger(init, q);
        UnappendRecords(a, d, Expected(init, q), q);
      }
      if WellAppended(chunks, q) {
        RecordsConcatIff(a, Body(d), q);
        RowsText(d, q);
      }
    }
  }

  /** The file reads as one header record, that of the opening chunk, and then the rows of all chunks in order. */
  predicate HasOneHeader(file: Bytes, chunks: seq<Bytes>, q: Byte) {
    && chunks != [] && CsvRecords(chunks[0], q) != []
    && CsvRecords(file, q) == Expected(chunks, q)
  }

  /**
   A part has that one header exactly when it was opened by a non-empty chunk, every later chunk
   has a one-line header, and every append happened at a record boundary.
   */
  lemma CsvPartHasOneHeader(chunks: seq<Bytes>, q: Byte)
    requires chunks != []
    ensures HasOneHeader(Content(Csv(true), chunks), chunks, q) <==> chunks[0] != [] && WellAppended(chunks, q)
  {
    ReadsBackIff(chunks, q);
  }

  // ── what the serializer writes ────────────────────────────────────────────

  /** Closed, ending in LF: what a serializer with LF or CR LF line ends gives for any records. */
  predicate Written(d: Bytes, q: Byte) {
    d == [] || (Closed(d, q) && d[|d| - 1] == LF)
  }

  lemma {:induction false} ClosedConcat(a: Bytes, b: Bytes, q: Byte)
    requires Closed(a, q) && Closed(b, q) && !SplitsCrLf(a, b)
    ensures Closed(a + b, q)
    decreases |a|
  {
    if a == [] {
      assert a + b == b;
    } else {
      var n := Scan(a, q, false);
      ScanInFront(a, b, q, false);
      RestOfConcat(a, b, n);
      ClosedConcat(a[n..], b, q);
    }
  }

  lemma WrittenConcat(a: Bytes, b: Bytes, q: Byte)
    requires Written(a, q) && Written(b, q)
    ensures Written(a + b, q) && Aligned(a, b, q)
  {
    if a == [] {
      assert a + b == b;
    } else if b == [] {
      assert a + b == a;
    } else {
      ClosedConcat(a, b, q);
    }
  }

  lemma WrittenBody(d: Bytes, q: Byte)
    requires Written(d, q) && OneLineHeader(d, q)
    ensures Written(Body(d), q)
  {
  }

  lemma {:induction false} WrittenContent(chunks: seq<Bytes>, q: Byte)
    requires forall i | 0 <= i < |chunks| :: Written(chunks[i], q)
    requires forall i | 0 < i < |chunks| :: OneLineHeader(chunks[i], q)
    ensures Written(Content(Csv(true), chunks), q)
  {
    if |chunks| == 1 {
      assert chunks == [chunks[0]];
      ContentOfOne(chunks[0]);
    } else if |chunks| > 1 {
      var (init, d) := (chunks[..|chunks| - 1], chunks[|chunks| - 1]);
      WrittenContent(init, q);
      WrittenBody(d, q);
      AppendedContent(chunks);
      WrittenConcat(Content(Csv(true), init), Body(d), q);
    }
  }

  /** For chunks that end in LF outside quotes, the only question is whether every later header is one line. */
  lemma WrittenReadsBackIff(chunks: seq<Bytes>, q: Byte)
    requires chunks != [] && forall i | 0 <= i < |chunks| :: Written(chunks[i], q)
    ensures ReadsBack(chunks, q) <==> forall i | 0 < i < |chunks| :: OneLineHeader(chunks[i], q)
  {
    ReadsBackIff(chunks, q);
    if forall i | 0 < i < |chunks| :: OneLineHeader(chunks[i], q) {
      forall i | 0 < i < |chunks| ensures AppendsWell(chunks[..i], chunks[i], q) {
        WrittenContent(chunks[..i], q);
        WrittenBody(chunks[i], q);
        WrittenConcat(Content(Csv(true), chunks[..i]), Body(chunks[i]), q);
      }
    }
    if WellAppended(chunks, q) {
      forall i | 0 < i < |chunks| ensures OneLineHeader(chunks[i], q) {
        assert AppendsWell(chunks[..i], chunks[i], q);
      }
    }
  }

  // ── failing inputs ────────────────────────────────────────────────────────

  const QUOTE: Byte := 34

  /** An empty opening chunk costs the part its header: the next chunk is stripped of its own. */
  lemma EmptyOpeningLosesHeader()
    ensures Content(Csv(true), [[], [104, LF, 49, LF]]) == [49, LF]
  {
    var h: Bytes := [104, LF, 49, LF];
    assert h[1..][0] == LF;
    assert LineLength(h) == 1 + LineLength(h[1..]) == 2;
    LaterCsvIsBody(h);
    ContentOfTwo(Csv(true), [], h);
  }

  /** A header `"a<LF>b",c` followed by the row `1`. */
  const QUOTED: Bytes := [34, 97, LF, 98, 34, 44, 99, LF, 49, LF]

  lemma QuotedLengths()
    ensures LineLength(QUOTED) == 3 && RecordLength(QUOTED, QUOTE) == 8
  {
    var d := QUOTED;
    assert d[1..][1..] == d[2..] && d[2..][1..] == d[3..] && d[3..][1..] == d[4..];
    assert d[4..][1..] == d[5..] && d[5..][1..] == d[6..] && d[6..][1..] == d[7..];
    assert LineLength(d[2..]) == 1 && LineLength(d[1..]) == 2;
    assert Scan(d[7..], QUOTE, false) == 1;
    assert Scan(d[5..], QUOTE, false) == 3;
    assert Scan(d[3..], QUOTE, true) == 5;
    assert Scan(d[1..], QUOTE, true) == 7;
  }

  /** Half of the second header stays in the part, which therefore does not read back. */
  lemma QuotedHeaderLeaks()
    ensures Content(Csv(true), [QUOTED, QUOTED]) == QUOTED + [98, 34, 44, 99, LF, 49, LF]
    ensures !ReadsBack([QUOTED, QUOTED], QUOTE)
  {
    var chunks := [QUOTED, QUOTED];
    QuotedLengths();
    LaterCsvIsBody(QUOTED);
    ContentOfTwo(Csv(true), QUOTED, QUOTED);
    ReadsBackIff(chunks, QUOTE);
    assert !AppendsWell(chunks[..1], chunks[1], QUOTE);
  }

  /** A chunk that does not end its last record fuses it with the next chunk's first row. */
  lemma UnterminatedFuses()
    ensures Content(Csv(true), [[104], [104, LF, 49, LF]]) == [104, 49, LF]
    ensures !ReadsBack([[104], [104, LF, 49, LF]], QUOTE)
  {
    var h: Bytes := [104];
    var d: Bytes := [104, LF, 49, LF];
    var chunks := [h, d];
    assert d[1..][0] == LF;
    assert LineLength(d) == 1 + LineLength(d[1..]) == 2;
    LaterCsvIsBody(d);
    ContentOfTwo(Csv(true), h, d);
    ContentOfOne(h);
    ReadsBackIff(chunks, QUOTE);
    assert h[1..] == [] && !Ends(h, QUOTE, false) && Body(d) != [];
    assert chunks[..1] == [h];
    assert !AppendsWell(chunks[..1], chunks[1], QUOTE);
  }
}
