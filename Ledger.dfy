/**
 * The metadata ledger of recording.py: rows `[filename, sentence]`, the
 * deterministic file name of a prompt, the membership test, the stable sort by
 * file name used when the ledger file is rewritten, and the text format
 * `filename|sentence` with its lenient line parser.
 */
module Ledger {

  import opened Basics
  import opened Text

  /** One ledger row: the wav file name and the sentence recorded into it. */
  datatype Row = Row(file: string, sentence: string)

  /** The wav file of prompt `idx` (0-based): `f"{idx + 1:03d}.wav"`. */
  function FileName(idx: nat): string
  {
    ZeroPad(Decimal(idx + 1), 3) + ".wav"
  }

  /**
   * A wav file name is `idx + 1` in decimal, zero-padded to three digits,
   * then ".wav": its digits read back as idx + 1.
   */
  lemma FileNameSpec(idx: nat)
    ensures var f := FileName(idx);
      |f| >= 7 && f[|f| - 4..] == ".wav" &&
      AllDigits(f[..|f| - 4]) && DigitsValue(f[..|f| - 4]) == idx + 1 &&
      (idx < 999 ==> |f| == 7)
  {
    var digits := ZeroPad(Decimal(idx + 1), 3);
    PaddedDecimalValue(idx + 1, 3);
    DecimalShort(idx + 1);
    var f := FileName(idx);
    assert f[..|f| - 4] == digits;
  }

  /** Numbers below 1000 have at most three digits. */
  lemma {:induction false} DecimalShort(n: nat)
    ensures n < 1000 ==> |Decimal(n)| <= 3
  {
    if 10 <= n < 1000 { DecimalShort(n / 10); }
  }

  /** Different prompts never share a wav file. */
  lemma FileNameInjective(i: nat, j: nat)
    requires FileName(i) == FileName(j)
    ensures i == j
  {
    FileNameSpec(i);
    FileNameSpec(j);
  }

  /** `f in [entry[0] for entry in rows]`. */
  function HasFile(rows: seq<Row>, f: string): (b: bool)
    ensures b <==> exists k :: 0 <= k < |rows| && rows[k].file == f
  {
    if rows == [] then false
    else rows[0].file == f || HasFile(rows[1..], f)
  }

  /** `is_recorded(idx)`: some row names the wav file of prompt idx. */
  predicate IsRecorded(rows: seq<Row>, idx: nat)
  {
    HasFile(rows, FileName(idx))
  }

  // ---------------------------------------------------------------------------
  // Stable sort by file name: `sorted(rows, key=lambda x: x[0])`
  // ---------------------------------------------------------------------------

  predicate SortedByFile(rows: seq<Row>)
  {
    forall i, j :: 0 <= i < j < |rows| ==> !LexLess(rows[j].file, rows[i].file)
  }

  /** Inserts `x` after every row whose file name is not greater than its own. */
  function InsertByFile(x: Row, s: seq<Row>): seq<Row>
  {
    if s == [] then [x]
    else if LexLess(x.file, s[0].file) then [x] + s
    else [s[0]] + InsertByFile(x, s[1..])
  }

  /** Insertion sort, each row inserted after the equal keys before it, so stable. */
  function SortByFile(rows: seq<Row>): seq<Row>
  {
    if rows == [] then []
    else InsertByFile(rows[|rows| - 1], SortByFile(rows[..|rows| - 1]))
  }

  /** The rows with file name `f`, in their order. */
  function WithFile(rows: seq<Row>, f: string): seq<Row>
  {
    if rows == [] then []
    else (if rows[0].file == f then [rows[0]] else []) + WithFile(rows[1..], f)
  }

  lemma {:induction false} InsertByFilePermutes(x: Row, s: seq<Row>)
    ensures multiset(InsertByFile(x, s)) == multiset(s) + multiset{x}
  {
    if s != [] && !LexLess(x.file, s[0].file) {
      InsertByFilePermutes(x, s[1..]);
      assert s == [s[0]] + s[1..];
    }
  }

  lemma {:induction false} InsertByFileSorted(x: Row, s: seq<Row>)
    requires SortedByFile(s)
    ensures SortedByFile(InsertByFile(x, s))
  {
    if s == [] {
    } else if LexLess(x.file, s[0].file) {
      forall j | 0 <= j < |s|
        ensures !LexLess(s[j].file, x.file)
      {
        if LexLess(s[j].file, x.file) {
          LexLessTransitive(s[j].file, x.file, s[0].file);
          LexLessIrreflexive(s[0].file);
        }
      }
    } else {
      var t := InsertByFile(x, s[1..]);
      InsertByFileSorted(x, s[1..]);
      InsertByFilePermutes(x, s[1..]);
      forall j | 0 <= j < |t|
        ensures !LexLess(t[j].file, s[0].file)
      {
        assert t[j] in multiset(t);
        if t[j] != x {
          assert t[j] in multiset(s[1..]);
          var k :| 0 <= k < |s[1..]| && s[1..][k] == t[j];
          assert s[k + 1] == t[j];
        }
      }
    }
  }

  /** Sorting yields rows in ascending file-name order. */
  lemma {:induction false} SortByFileSorted(rows: seq<Row>)
    ensures SortedByFile(SortByFile(rows))
  {
    if rows != [] {
      SortByFileSorted(rows[..|rows| - 1]);
      InsertByFileSorted(rows[|rows| - 1], SortByFile(rows[..|rows| - 1]));
    }
  }

  /** Sorting neither loses nor invents a row. */
  lemma {:induction false} SortByFilePermutes(rows: seq<Row>)
    ensures multiset(SortByFile(rows)) == multiset(rows)
  {
    if rows != [] {
      var init, last := rows[..|rows| - 1], rows[|rows| - 1];
      SortByFilePermutes(init);
      InsertByFilePermutes(last, SortByFile(init));
      assert rows == init + [last];
    }
  }

  lemma {:induction false} WithFileAppend(a: seq<Row>, b: seq<Row>, f: string)
    ensures WithFile(a + b, f) == WithFile(a, f) + WithFile(b, f)
  {
    if a != [] {
      WithFileAppend(a[1..], b, f);
      assert (a + b)[0] == a[0];
      assert (a + b)[1..] == a[1..] + b;
    } else {
      assert a + b == b;
    }
  }

  lemma {:induction false} WithFileNone(s: seq<Row>, f: string)
    requires forall k :: 0 <= k < |s| ==> s[k].file != f
    ensures WithFile(s, f) == []
  {
    if s != [] { WithFileNone(s[1..], f); }
  }

  /** No row of a sorted list has a file name below that of its first row. */
  lemma NoFileBelowFirst(s: seq<Row>, f: string)
    requires SortedByFile(s) && s != [] && LexLess(f, s[0].file)
    ensures WithFile(s, f) == []
  {
    forall k | 0 <= k < |s|
      ensures s[k].file != f
    {
      if k == 0 {
        LexLessIrreflexive(f);
      } else {
        assert !LexLess(s[k].file, s[0].file);
      }
    }
    WithFileNone(s, f);
  }

  lemma SortedTail(s: seq<Row>)
    requires SortedByFile(s) && s != []
    ensures SortedByFile(s[1..])
  {
    forall i, j | 0 <= i < j < |s| - 1 ensures !LexLess(s[1..][j].file, s[1..][i].file) {
      assert s[1..][j] == s[j + 1] && s[1..][i] == s[i + 1];
    }
  }

  /** Inserting in front of a sorted list adds `x` ahead of every row of its file, of which there are none. */
  lemma InsertStableFront(x: Row, s: seq<Row>, f: string)
    requires SortedByFile(s) && (s == [] || LexLess(x.file, s[0].file))
    ensures WithFile(InsertByFile(x, s), f) == WithFile(s, f) + (if x.file == f then [x] else [])
  {
    var mine := if x.file == f then [x] else [];
    assert InsertByFile(x, s) == [x] + s;
    assert ([x] + s)[1..] == s;
    assert WithFile([x] + s, f) == mine + WithFile(s, f);
    if s != [] && x.file == f {
      NoFileBelowFirst(s, f);
    }
    if s == [] {
      assert WithFile(s, f) == [];
    }
  }

  /** Inserting past the first row keeps that row in front. */
  lemma InsertStablePast(x: Row, s: seq<Row>, f: string)
    requires s != [] && !LexLess(x.file, s[0].file)
    requires WithFile(InsertByFile(x, s[1..]), f) == WithFile(s[1..], f) + (if x.file == f then [x] else [])
    ensures WithFile(InsertByFile(x, s), f) == WithFile(s, f) + (if x.file == f then [x] else [])
  {
    var head := if s[0].file == f then [s[0]] else [];
    var tail := if x.file == f then [x] else [];
    var t := InsertByFile(x, s[1..]);
    assert InsertByFile(x, s) == [s[0]] + t;
    assert ([s[0]] + t)[1..] == t;
    assert WithFile([s[0]] + t, f) == head + (WithFile(s[1..], f) + tail);
    assert WithFile(s, f) == head + WithFile(s[1..], f);
    assert head + (WithFile(s[1..], f) + tail) == (head + WithFile(s[1..], f)) + tail;
  }

  lemma {:induction false} InsertByFileStable(x: Row, s: seq<Row>, f: string)
    requires SortedByFile(s)
    ensures WithFile(InsertByFile(x, s), f) == WithFile(s, f) + (if x.file == f then [x] else [])
  {
    if s == [] || LexLess(x.file, s[0].file) {
      InsertStableFront(x, s, f);
    } else {
      SortedTail(s);
      InsertByFileStable(x, s[1..], f);
      InsertStablePast(x, s, f);
    }
  }

  /** The sort is stable: rows sharing a file name keep their relative order. */
  lemma {:induction false} SortByFileStable(rows: seq<Row>, f: string)
    ensures WithFile(SortByFile(rows), f) == WithFile(rows, f)
  {
    if rows != [] {
      var init, last := rows[..|rows| - 1], rows[|rows| - 1];
      SortByFileStable(init, f);
      SortByFileSorted(init);
      InsertByFileStable(last, SortByFile(init), f);
      assert rows == init + [last];
      WithFileAppend(init, [last], f);
    }
  }

  // ---------------------------------------------------------------------------
  // The ledger file: one `filename|sentence` line per row
  // ---------------------------------------------------------------------------

  function RowLine(r: Row): string
  {
    r.file + "|" + r.sentence
  }

  /** The lines `f"{entry[0]}|{entry[1]}\n"`, in the given order. */
  function Render(rows: seq<Row>): string
  {
    if rows == [] then "" else RowLine(rows[0]) + "\n" + Render(rows[1..])
  }

  /** What `save_metadata` and `delete_audio` write: every row, sorted by file name. */
  function LedgerText(rows: seq<Row>): string
  {
    Render(SortByFile(rows))
  }

  /**
   * One line of `load_metadata`: stripped, skipped when empty, split on the
   * first '|' only, dropped when it has no '|'.
   */
  function ParseLine(line: string): (r: Option<Row>)
    ensures r.Some? <==> '|' in Strip(line)
    ensures r.Some? ==> RowLine(r.value) == Strip(line) && '|' !in r.value.file
  {
    var t := Strip(line);
    if t == [] then None
    else match IndexOf(t, '|')
      case None => None
      case Some(k) =>
        assert t == t[..k] + "|" + t[k + 1..];
        Some(Row(t[..k], t[k + 1..]))
  }

  function ParseLines(lines: seq<string>): seq<Row>
  {
    if lines == [] then []
    else match ParseLine(lines[0])
      case None => ParseLines(lines[1..])
      case Some(r) => [r] + ParseLines(lines[1..])
  }

  /** `load_metadata` over the text of an existing ledger file. */
  function Parse(text: string): seq<Row>
  {
    ParseLines(ReadLines(text))
  }

  /** A row whose line survives the file format unchanged. */
  predicate WellFormed(r: Row)
  {
    '|' !in r.file && '\n' !in r.file && '\r' !in r.file &&
    '\n' !in r.sentence && '\r' !in r.sentence && Stripped(RowLine(r))
  }

  predicate AllWellFormed(rows: seq<Row>)
  {
    forall k :: 0 <= k < |rows| ==> WellFormed(rows[k])
  }

  lemma ParseLineOfRow(r: Row)
    requires WellFormed(r)
    ensures ParseLine(RowLine(r)) == Some(r)
  {
    var t := RowLine(r);
    StripOfStripped(t);
    assert t[..|r.file|] == r.file;
    IndexOfAt(t, '|', |r.file|);
    assert t[|r.file| + 1..] == r.sentence;
  }

  lemma RowLineOneLine(r: Row)
    requires WellFormed(r)
    ensures '\n' !in RowLine(r) && '\r' !in RowLine(r)
  {
    var line := RowLine(r);
    forall k | 0 <= k < |line|
      ensures line[k] != '\n' && line[k] != '\r'
    {
      if k < |r.file| {
        assert line[k] == r.file[k];
      } else if k > |r.file| {
        assert line[k] == r.sentence[k - |r.file| - 1];
      }
    }
  }

  /** Reading back a rendered ledger gives exactly its rows. */
  lemma {:induction false} ParseRender(rows: seq<Row>)
    requires AllWellFormed(rows)
    ensures Parse(Render(rows)) == rows
  {
    if rows == [] {
      assert Universal("") == "" && Lines("") == [""];
      assert ParseLine("") == None;
    } else {
      var r := rows[0];
      var line, rest := RowLine(r), Render(rows[1..]);
      assert WellFormed(r) && AllWellFormed(rows[1..]);
      assert Render(rows) == line + "\n" + rest;
      RowLineOneLine(r);
      ReadLinesCons(line, rest);
      ParseLineOfRow(r);
      ParseRender(rows[1..]);
      ParseLinesCons(line, ReadLines(rest), r);
      assert rows == [r] + rows[1..];
    }
  }

  lemma ParseLinesCons(line: string, lines: seq<string>, r: Row)
    requires ParseLine(line) == Some(r)
    ensures ParseLines([line] + lines) == [r] + ParseLines(lines)
  {
    assert ([line] + lines)[1..] == lines;
  }

  /** A row parsed from one line is well formed. */
  lemma ParseLineWellFormed(line: string)
    requires '\n' !in line && '\r' !in line
    ensures ParseLine(line).Some? ==> WellFormed(ParseLine(line).value)
  {
    var o := ParseLine(line);
    if o.Some? {
      var r, t := o.value, Strip(line);
      StripSpec(line);
      StripIsStripped(line);
      var i := StripStart(line);
      NotInSlice(line, '\n', i, i + |t|);
      NotInSlice(line, '\r', i, i + |t|);
      assert t == r.file + "|" + r.sentence;
      assert r.file == t[..|r.file|];
      assert r.sentence == t[|r.file| + 1..];
      NotInSlice(t, '\n', 0, |r.file|);
      NotInSlice(t, '\n', |r.file| + 1, |t|);
      NotInSlice(t, '\r', 0, |r.file|);
      NotInSlice(t, '\r', |r.file| + 1, |t|);
    }
  }

  /** Every row the parser produces is well formed. */
  lemma {:induction false} ParseLinesWellFormed(lines: seq<string>)
    requires forall k :: 0 <= k < |lines| ==> '\n' !in lines[k] && '\r' !in lines[k]
    ensures AllWellFormed(ParseLines(lines))
  {
    if lines != [] {
      ParseLinesWellFormed(lines[1..]);
      ParseLineWellFormed(lines[0]);
    }
  }

  /**
   * The ledger file round-trips: loading what was written gives the rows in
   * the order they were written, i.e. sorted by file name.
   */
  lemma LedgerRoundTrip(rows: seq<Row>)
    requires AllWellFormed(rows)
    ensures Parse(LedgerText(rows)) == SortByFile(rows)
  {
    var s := SortByFile(rows);
    SortByFilePermutes(rows);
    forall k | 0 <= k < |s|
      ensures WellFormed(s[k])
    {
      assert s[k] in multiset(rows);
      var j :| 0 <= j < |rows| && rows[j] == s[k];
    }
    ParseRender(s);
  }

  /** A ledger loaded from any file survives being written and read again. */
  lemma LoadedLedgerRoundTrip(text: string)
    ensures Parse(LedgerText(Parse(text))) == SortByFile(Parse(text))
  {
    ParseLinesWellFormed(ReadLines(text));
    LedgerRoundTrip(Parse(text));
  }

  /** Digits followed by ".wav" hold no whitespace, no '|' and no line break. */
  lemma WavNameChars(f: string)
    requires |f| >= 4 && f[|f| - 4..] == ".wav" && AllDigits(f[..|f| - 4])
    ensures forall k :: 0 <= k < |f| ==> !IsSpace(f[k]) && f[k] != '|' && f[k] != '\n' && f[k] != '\r'
  {
    var n := |f| - 4;
    forall k | 0 <= k < |f|
      ensures !IsSpace(f[k]) && f[k] != '|' && f[k] != '\n' && f[k] != '\r'
    {
      if k < n {
        assert f[k] == f[..n][k];
        assert IsDigit(f[k]);
      } else {
        assert f[k] == f[n..][k - n];
        assert f[k] in ".wav";
      }
    }
  }

  /** A wav file name holds no whitespace, no '|' and no line break. */
  lemma FileNameChars(idx: nat)
    ensures forall k :: 0 <= k < |FileName(idx)| ==>
      var c := FileName(idx)[k]; !IsSpace(c) && c != '|' && c != '\n' && c != '\r'
  {
    FileNameSpec(idx);
    WavNameChars(FileName(idx));
  }

  /** The row `save_metadata` adds for a stripped one-line sentence is well formed. */
  lemma SavedRowWellFormed(idx: nat, sentence: string)
    requires Stripped(sentence) && '\n' !in sentence && '\r' !in sentence
    ensures WellFormed(Row(FileName(idx), sentence))
  {
    var f := FileName(idx);
    FileNameChars(idx);
    var line := RowLine(Row(f, sentence));
    assert line[0] == f[0];
    assert line[|line| - 1] == if sentence == [] then '|' else sentence[|sentence| - 1];
  }
}
