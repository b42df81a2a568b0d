/**
 * The FreeSurfer stats-file line parser of brainload.stats: every line goes to
 * one of four buckets (measures, table meta data, table rows, ignored lines);
 * '# TableCol' lines fill a nested column map; column indices are sorted as
 * integers; the table header comes from the ColHeaders line or the TableCol
 * entries, with a fixed precedence and error case.
 */
module Stats {
  import opened Wrappers
  import opened PyStr

  // ---------------------------------------------------------------------------
  // Line kinds and buckets (_parse_stats_lines)

  datatype LineKind = MeasureLine | MetaLine | IgnoredLine | DataLine

  /** Which bucket _parse_stats_lines puts a line in. */
  function KindOf(line: string): LineKind {
    if StartsWith(line, "#") then
      if StartsWith(line, "# Measure ") then MeasureLine
      else if StartsWith(line, "# TableCol") || StartsWith(line, "# NRows")
           || StartsWith(line, "# NTableCols") || StartsWith(line, "# ColHeaders") then MetaLine
      else IgnoredLine
    else DataLine
  }

  /** The lines of one kind, in file order. */
  function Bucket(lines: seq<string>, k: LineKind): (r: seq<string>)
    ensures |r| <= |lines|
    ensures forall i :: 0 <= i < |r| ==> KindOf(r[i]) == k
  {
    if lines == [] then []
    else Bucket(lines[..|lines| - 1], k) + (if KindOf(lines[|lines| - 1]) == k then [lines[|lines| - 1]] else [])
  }

  /** Every line lands in exactly one bucket: together the buckets hold the lines. */
  lemma {:induction false} BucketsPartition(lines: seq<string>)
    ensures multiset(Bucket(lines, MeasureLine)) + multiset(Bucket(lines, MetaLine))
            + multiset(Bucket(lines, IgnoredLine)) + multiset(Bucket(lines, DataLine)) == multiset(lines)
    ensures |Bucket(lines, MeasureLine)| + |Bucket(lines, MetaLine)| + |Bucket(lines, IgnoredLine)| + |Bucket(lines, DataLine)| == |lines|
  {
    if lines != [] {
      var init, last := lines[..|lines| - 1], lines[|lines| - 1];
      BucketsPartition(init);
      assert lines == init + [last];
      assert multiset(lines) == multiset(init) + multiset{last};
      AddToOneBucket(Bucket(init, MeasureLine), Bucket(init, MetaLine), Bucket(init, IgnoredLine), Bucket(init, DataLine),
                     Bucket(lines, MeasureLine), Bucket(lines, MetaLine), Bucket(lines, IgnoredLine), Bucket(lines, DataLine),
                     last, KindOf(last));
    }
  }

  /** Adding a line to the one bucket of its kind adds it to the union of the buckets. */
  lemma {:induction false} AddToOneBucket(a0: seq<string>, a1: seq<string>, a2: seq<string>, a3: seq<string>,
                                          b0: seq<string>, b1: seq<string>, b2: seq<string>, b3: seq<string>,
                                          x: string, kd: LineKind)
    requires b0 == a0 + (if kd == MeasureLine then [x] else [])
    requires b1 == a1 + (if kd == MetaLine then [x] else [])
    requires b2 == a2 + (if kd == IgnoredLine then [x] else [])
    requires b3 == a3 + (if kd == DataLine then [x] else [])
    ensures multiset(b0) + multiset(b1) + multiset(b2) + multiset(b3)
            == multiset(a0) + multiset(a1) + multiset(a2) + multiset(a3) + multiset{x}
    ensures |b0| + |b1| + |b2| + |b3| == |a0| + |a1| + |a2| + |a3| + 1
  {
    match kd
    case MeasureLine => assert b1 == a1 && b2 == a2 && b3 == a3;
    case MetaLine => assert b0 == a0 && b2 == a2 && b3 == a3;
    case IgnoredLine => assert b0 == a0 && b1 == a1 && b3 == a3;
    case DataLine => assert b0 == a0 && b1 == a1 && b2 == a2;
  }

  /** A line of kind k is in bucket k, and in no other. */
  lemma {:induction false} BucketMembership(lines: seq<string>, k: LineKind, line: string)
    ensures line in Bucket(lines, k) <==> line in lines && KindOf(line) == k
  {
    if lines != [] {
      var init := lines[..|lines| - 1];
      BucketMembership(init, k, line);
      assert lines == init + [lines[|lines| - 1]];
    }
  }

  // ---------------------------------------------------------------------------
  // _measure and _table_row

  /** line[10:] */
  function AfterMeasurePrefix(line: string): string {
    if |line| <= 10 then "" else line[10..]
  }

  /** _measure: the text after the 10-character '# Measure ' prefix, split on ', '. */
  function Measure(line: string): seq<string> {
    SplitOn(AfterMeasurePrefix(line), ", ")
  }

  /** The measure fields joined with ', ' give back the line after its prefix, and no field holds ', '. */
  lemma {:induction false} MeasureFields(line: string)
    ensures Join(", ", Measure(line)) == AfterMeasurePrefix(line)
    ensures forall k, j :: 0 <= k < |Measure(line)| ==> !OccursAt(Measure(line)[k], ", ", j)
  {
    JoinSplitOn(AfterMeasurePrefix(line), ", ");
    forall k, j | 0 <= k < |Measure(line)| ensures !OccursAt(Measure(line)[k], ", ", j) {
      SplitOnPiecesFree(AfterMeasurePrefix(line), ", ", k, j);
    }
  }

  /** _table_row: line.split() */
  function TableRow(line: string): seq<string> {
    SplitWs(line, None)
  }

  /** The row fields are non-empty, hold no whitespace and spell the line without its whitespace. */
  lemma {:induction false} TableRowFields(line: string)
    ensures Concat(TableRow(line)) == WithoutSpace(line)
    ensures forall k :: 0 <= k < |TableRow(line)| ==> TableRow(line)[k] != "" && NoSpace(TableRow(line)[k])
  {
    SplitWsConcat(line);
    SplitWsTokensNonEmpty(line);
  }

  // ---------------------------------------------------------------------------
  // Table meta data (_table_meta_data)

  /**
   * The 'column_info_' entry: the column indices in the order they were first
   * seen, and per index the keyword/value pairs of its TableCol lines.
   */
  datatype ColumnInfo = ColumnInfo(indices: seq<string>, columns: map<string, map<string, string>>)

  /**
   * table_meta_data: the plain entries (NRows, NTableCols, ColHeaders, ...) and
   * the 'column_info_' entry when a TableCol line created it.
   */
  datatype TableMeta = TableMeta(entries: map<string, string>, columnInfo: Option<ColumnInfo>)

  const EmptyMeta := TableMeta(map[], None)

  /** The indices are listed once each and are exactly the keys of the column map. */
  ghost predicate ValidColumnInfo(info: ColumnInfo) {
    && (forall i, j :: 0 <= i < j < |info.indices| ==> info.indices[i] != info.indices[j])
    && (forall idx :: idx in info.columns <==> idx in info.indices)
  }

  ghost predicate ValidMeta(m: TableMeta) {
    m.columnInfo.Some? ==> ValidColumnInfo(m.columnInfo.value)
  }

  predicate IsTableColLine(line: string) {
    StartsWith(line, "# TableCol")
  }

  /** The fields of a meta line: 5 for a TableCol line, 3 otherwise (the last one holds the rest of the line). */
  function MetaFields(line: string): seq<string> {
    if IsTableColLine(line) then SplitWs(line, Some(4)) else SplitWs(line, Some(2))
  }

  /** The line has too few fields: _table_meta_data raises IndexError. */
  predicate AddFails(line: string) {
    if IsTableColLine(line) then |MetaFields(line)| < 5 else |MetaFields(line)| < 3
  }

  /** The column info before a TableCol line is stored: created empty when absent. */
  function InfoOrEmpty(m: TableMeta): ColumnInfo {
    if m.columnInfo.Some? then m.columnInfo.value else ColumnInfo([], map[])
  }

  /**
   * The table meta data after _table_meta_data(line, m). A TableCol line creates
   * 'column_info_' first, so a TableCol line with too few fields still leaves it behind.
   */
  function Added(m: TableMeta, line: string): TableMeta {
    var e := MetaFields(line);
    if IsTableColLine(line) then
      var info := InfoOrEmpty(m);
      if |e| < 5 then TableMeta(m.entries, Some(info))
      else
        var idx := e[2];
        var column := if idx in info.columns then info.columns[idx] else map[];
        var indices := if idx in info.columns then info.indices else info.indices + [idx];
        TableMeta(m.entries, Some(ColumnInfo(indices, info.columns[idx := column[e[3] := RStrip(e[4])]])))
    else if |e| < 3 then m
    else TableMeta(m.entries[e[1] := RStrip(e[2])], m.columnInfo)
  }

  /** table_meta_data as _parse_stats_lines builds it, updated in place line by line. */
  class TableMetaData {
    var entries: map<string, string>
    var columnInfo: Option<ColumnInfo>

    function Snapshot(): TableMeta
      reads this
    {
      TableMeta(entries, columnInfo)
    }

    constructor ()
      ensures Snapshot() == EmptyMeta
    {
      entries := map[];
      columnInfo := None;
    }

    /** _table_meta_data(line, self): IndexError when the line has too few fields. */
    method Add(line: string) returns (r: Result<()>)
      requires KindOf(line) == MetaLine
      modifies this
      ensures r.Err? <==> AddFails(line)
      ensures r.Err? ==> r.error == IndexError
      ensures Snapshot() == Added(old(Snapshot()), line)
    {
      if IsTableColLine(line) {
        var info := if columnInfo.Some? then columnInfo.value else ColumnInfo([], map[]);
        columnInfo := Some(info);
        var e := SplitWs(line, Some(4));
        if |e| < 5 {
          return Err(IndexError);
        }
        var idx := e[2];
        var column := if idx in info.columns then info.columns[idx] else map[];
        var indices := if idx in info.columns then info.indices else info.indices + [idx];
        columnInfo := Some(ColumnInfo(indices, info.columns[idx := column[e[3] := RStrip(e[4])]]));
      } else {
        var e := SplitWs(line, Some(2));
        if |e| < 3 {
          return Err(IndexError);
        }
        entries := entries[e[1] := RStrip(e[2])];
      }
      r := Ok(());
    }
  }

  /**
   * A TableCol line with enough fields stores its value, rstripped, under
   * column_info_[index][keyword]; every other entry stays as it was.
   */
  lemma {:induction false} TableColStores(m: TableMeta, line: string)
    requires IsTableColLine(line) && !AddFails(line)
    ensures var e := MetaFields(line);
      var r := Added(m, line);
      && r.entries == m.entries
      && r.columnInfo.Some?
      && e[2] in r.columnInfo.value.columns
      && r.columnInfo.value.columns[e[2]][e[3]] == RStrip(e[4])
      && (forall kw :: kw != e[3] && m.columnInfo.Some? && e[2] in m.columnInfo.value.columns
                       && kw in m.columnInfo.value.columns[e[2]] ==>
            kw in r.columnInfo.value.columns[e[2]]
            && r.columnInfo.value.columns[e[2]][kw] == m.columnInfo.value.columns[e[2]][kw])
      && (forall idx :: idx != e[2] && m.columnInfo.Some? && idx in m.columnInfo.value.columns ==>
            idx in r.columnInfo.value.columns && r.columnInfo.value.columns[idx] == m.columnInfo.value.columns[idx])
  {
  }

  /** Any other meta line with enough fields sets entries[field 1] to field 2, rstripped, and nothing else. */
  lemma {:induction false} MetaEntryStores(m: TableMeta, line: string)
    requires !IsTableColLine(line) && !AddFails(line)
    ensures var e := MetaFields(line);
      var r := Added(m, line);
      && r.columnInfo == m.columnInfo
      && r.entries == m.entries[e[1] := RStrip(e[2])]
  {
  }

  /** Adding a line keeps the column indices listed once each and in step with the column map. */
  lemma {:induction false} AddedKeepsValid(m: TableMeta, line: string)
    requires ValidMeta(m)
    ensures ValidMeta(Added(m, line))
  {
    var e := MetaFields(line);
    if IsTableColLine(line) && |e| >= 5 {
      var info := InfoOrEmpty(m);
      var r := Added(m, line).columnInfo.value;
      if e[2] !in info.columns {
        assert forall i :: 0 <= i < |info.indices| ==> info.indices[i] != e[2];
        assert forall i :: 0 <= i < |info.indices| ==> r.indices[i] == info.indices[i];
      }
    }
  }

  /**
   * The key a non-TableCol meta line writes starts with 'N' or 'C' (NRows,
   * NTableCols, ColHeaders), so it never clashes with 'column_info_': keeping the
   * column info apart from the plain entries loses nothing.
   */
  lemma {:induction false} MetaKeyIsNotColumnInfo(line: string)
    requires KindOf(line) == MetaLine && !IsTableColLine(line) && !AddFails(line)
    ensures |MetaFields(line)[1]| > 0
    ensures MetaFields(line)[1][0] == 'N' || MetaFields(line)[1][0] == 'C'
    ensures MetaFields(line)[1] != "column_info_"
  {
    MetaLineStart(line);
    SecondFieldStart(line);
  }

  /** A meta line other than TableCol starts with '# N' or '# C'. */
  lemma {:induction false} MetaLineStart(line: string)
    requires KindOf(line) == MetaLine && !IsTableColLine(line)
    ensures |line| >= 3 && line[0] == '#' && line[1] == ' ' && (line[2] == 'N' || line[2] == 'C')
  {
    if StartsWith(line, "# NRows") {
      assert line[..7] == "# NRows";
    } else if StartsWith(line, "# NTableCols") {
      assert line[..12] == "# NTableCols";
    } else {
      assert line[..12] == "# ColHeaders";
    }
  }

  /** When a text starts with a one-character field and a blank, its second field starts at its third character. */
  lemma {:induction false} SecondFieldStart(s: string)
    requires |s| >= 3 && !IsSpace(s[0]) && IsSpace(s[1]) && !IsSpace(s[2])
    ensures |SplitWs(s, Some(2))| >= 2
    ensures |SplitWs(s, Some(2))[1]| > 0 && SplitWs(s, Some(2))[1][0] == s[2]
  {
    assert LeadingSpaces(s) == 0;
    assert TokenLength(s[1..]) == 0;
    assert TokenLength(s) == 1;
    var t := s[1..];
    assert LeadingSpaces(t[1..]) == 0;
    assert LeadingSpaces(t) == 1;
    var n := TokenLength(t[1..]);
    assert n > 0;
    assert SplitWs(s, Some(2)) == [s[..1]] + SplitWs(t, Some(1));
    assert SplitWs(t, Some(1)) == [t[1..1 + n]] + SplitWs(t[1 + n..], Some(0));
  }

  // ---------------------------------------------------------------------------
  // _sorted_header_indices: sorted(column_info_.keys(), key=int)

  predicate AllInts(xs: seq<string>) {
    forall i :: 0 <= i < |xs| ==> ParseInt(xs[i]).Some?
  }

  /** int(s), read as 0 where int() would raise (only ever used on integer literals). */
  function IntKey(s: string): int {
    if ParseInt(s).Some? then ParseInt(s).value else 0
  }

  predicate SortedByInt(xs: seq<string>) {
    forall i, j :: 0 <= i < j < |xs| ==> IntKey(xs[i]) <= IntKey(xs[j])
  }

  /**
   * Insert x before the first element whose integer value is not smaller: the
   * result holds the elements of ys and x, and is sorted when ys is.
   */
  function Insert(x: string, ys: seq<string>): (r: seq<string>)
    ensures |r| == |ys| + 1
    ensures multiset(r) == multiset(ys) + multiset{x}
    ensures SortedByInt(ys) ==> SortedByInt(r)
  {
    if ys == [] || IntKey(x) <= IntKey(ys[0]) then
      InsertAtHead(x, ys);
      [x] + ys
    else
      var rest := Insert(x, ys[1..]);
      assert ys == [ys[0]] + ys[1..];
      InsertAfterHead(x, ys, rest);
      [ys[0]] + rest
  }

  lemma {:induction false} InsertAtHead(x: string, ys: seq<string>)
    requires ys == [] || IntKey(x) <= IntKey(ys[0])
    ensures SortedByInt(ys) ==> SortedByInt([x] + ys)
  {
    if SortedByInt(ys) {
      var r := [x] + ys;
      forall i, j | 0 <= i < j < |r|
        ensures IntKey(r[i]) <= IntKey(r[j])
      {
        if i == 0 {
          assert r[j] == ys[j - 1];
          assert IntKey(ys[0]) <= IntKey(ys[j - 1]) || j == 1;
        } else {
          assert r[i] == ys[i - 1] && r[j] == ys[j - 1];
        }
      }
    }
  }

  lemma {:induction false} InsertAfterHead(x: string, ys: seq<string>, rest: seq<string>)
    requires ys != [] && IntKey(x) > IntKey(ys[0])
    requires multiset(rest) == multiset(ys[1..]) + multiset{x}
    requires SortedByInt(ys[1..]) ==> SortedByInt(rest)
    ensures SortedByInt(ys) ==> SortedByInt([ys[0]] + rest)
  {
    if SortedByInt(ys) {
      SortedTail(ys);
      HeadBelow(x, ys, rest);
      ConsSorted(ys[0], rest);
    }
  }

  lemma {:induction false} SortedTail(ys: seq<string>)
    requires ys != [] && SortedByInt(ys)
    ensures SortedByInt(ys[1..])
  {
    forall i, j | 0 <= i < j < |ys[1..]|
      ensures IntKey(ys[1..][i]) <= IntKey(ys[1..][j])
    {
      assert ys[1..][i] == ys[i + 1] && ys[1..][j] == ys[j + 1];
    }
  }

  lemma {:induction false} HeadBelow(x: string, ys: seq<string>, rest: seq<string>)
    requires ys != [] && IntKey(x) > IntKey(ys[0]) && SortedByInt(ys)
    requires multiset(rest) == multiset(ys[1..]) + multiset{x}
    ensures forall k :: 0 <= k < |rest| ==> IntKey(ys[0]) <= IntKey(rest[k])
  {
    forall k | 0 <= k < |rest|
      ensures IntKey(ys[0]) <= IntKey(rest[k])
    {
      assert rest[k] in multiset(ys[1..]) + multiset{x};
      if rest[k] != x {
        assert rest[k] in ys[1..];
        var m :| 0 <= m < |ys[1..]| && ys[1..][m] == rest[k];
        assert ys[1..][m] == ys[m + 1];
      }
    }
  }

  lemma {:induction false} ConsSorted(h: string, rest: seq<string>)
    requires SortedByInt(rest)
    requires forall k :: 0 <= k < |rest| ==> IntKey(h) <= IntKey(rest[k])
    ensures SortedByInt([h] + rest)
  {
    var r := [h] + rest;
    forall i, j | 0 <= i < j < |r|
      ensures IntKey(r[i]) <= IntKey(r[j])
    {
      assert r[j] == rest[j - 1];
      if i > 0 {
        assert r[i] == rest[i - 1];
      }
    }
  }

  /** Insertion sort by integer value. */
  function SortByInt(xs: seq<string>): (r: seq<string>)
    ensures |r| == |xs|
  {
    if xs == [] then [] else Insert(xs[0], SortByInt(xs[1..]))
  }

  /** The sort orders by integer value and keeps every element. */
  lemma {:induction false} SortByIntCorrect(xs: seq<string>)
    ensures SortedByInt(SortByInt(xs))
    ensures multiset(SortByInt(xs)) == multiset(xs)
  {
    if xs != [] {
      SortByIntCorrect(xs[1..]);
      assert xs == [xs[0]] + xs[1..];
    }
  }

  /**
   * _sorted_header_indices: KeyError without 'column_info_', ValueError when an
   * index is not an integer literal, otherwise the indices in integer order.
   */
  function SortedHeaderIndices(m: TableMeta): (r: Result<seq<string>>)
    ensures r.Ok? <==> m.columnInfo.Some? && AllInts(m.columnInfo.value.indices)
    ensures m.columnInfo.None? ==> r == Err(KeyError("column_info_"))
    ensures r.Ok? ==> SortedByInt(r.value) && multiset(r.value) == multiset(m.columnInfo.value.indices)
  {
    if m.columnInfo.None? then Err(KeyError("column_info_"))
    else if !AllInts(m.columnInfo.value.indices) then Err(ValueError("invalid literal for int()"))
    else
      SortByIntCorrect(m.columnInfo.value.indices);
      Ok(SortByInt(m.columnInfo.value.indices))
  }

  /** '10' sorts after '9', not between '1' and '2'. */
  lemma {:induction false} SortedHeaderIndicesExample()
    ensures SortByInt(["10", "9", "1", "2"]) == ["1", "2", "9", "10"]
  {
    SortTail();
    InsertTen();
    assert ["10", "9", "1", "2"][1..] == ["9", "1", "2"];
  }

  lemma {:induction false} InsertTen()
    ensures Insert("10", ["1", "2", "9"]) == ["1", "2", "9", "10"]
  {
    SmallKeys();
    InsertLast("10", "1", "2", "9");
  }

  /** An element with the largest key goes to the end of a three-element list. */
  lemma {:induction false} InsertLast(x: string, a: string, b: string, c: string)
    requires IntKey(x) > IntKey(a) && IntKey(x) > IntKey(b) && IntKey(x) > IntKey(c)
    ensures Insert(x, [a, b, c]) == [a, b, c, x]
  {
    var s0: seq<string> := [];
    assert Insert(x, s0) == [x];
    InsertPast(x, c, s0);
    InsertPast(x, b, [c] + s0);
    InsertPast(x, a, [b] + ([c] + s0));
    Nested(a, b, c, x);
  }

  lemma {:induction false} Nested(a: string, b: string, c: string, x: string)
    ensures [a] + ([b] + ([c] + [])) == [a, b, c]
    ensures [a] + ([b] + ([c] + [x])) == [a, b, c, x]
  {
  }

  /** An element with a smaller key stays in front of the insertion point. */
  lemma {:induction false} InsertPast(x: string, y: string, ys: seq<string>)
    requires IntKey(x) > IntKey(y)
    ensures Insert(x, [y] + ys) == [y] + Insert(x, ys)
  {
    assert ([y] + ys)[1..] == ys;
  }

  lemma {:induction false} SmallKeys()
    ensures IntKey("1") == 1 && IntKey("2") == 2 && IntKey("9") == 9 && IntKey("10") == 10
  {
    assert IntKey("1") == 1 by { ParseIntToString(1); assert IntToString(1) == "1"; }
    assert IntKey("2") == 2 by { ParseIntToString(2); assert IntToString(2) == "2"; }
    assert IntKey("9") == 9 by { ParseIntToString(9); assert IntToString(9) == "9"; }
    assert IntKey("10") == 10 by { ParseIntToString(10); assert IntToString(10) == "10"; }
  }

  lemma {:induction false} SortTail()
    ensures SortByInt(["9", "1", "2"]) == ["1", "2", "9"]
  {
    SmallKeys();
    assert SortByInt(["2"]) == ["2"];
    assert SortByInt(["1", "2"]) == ["1", "2"] by { assert ["1", "2"][1..] == ["2"]; }
    assert Insert("9", ["1", "2"]) == ["1", "2", "9"] by {
      assert ["1", "2"][1..] == ["2"];
      assert ["2"][1..] == [];
    }
    assert ["9", "1", "2"][1..] == ["1", "2"];
  }

  // ---------------------------------------------------------------------------
  // _header_line_elements

  /** ColHeaders split on whitespace, or None without a ColHeaders entry. */
  function ColHeadersElements(m: TableMeta): Option<seq<string>> {
    if "ColHeaders" in m.entries then Some(SplitWs(m.entries["ColHeaders"], None)) else None
  }

  predicate HasColHeader(columns: map<string, map<string, string>>, idx: string) {
    idx in columns && "ColHeader" in columns[idx]
  }

  /**
   * The ColHeader values of the columns in the given order, up to the first
   * column without one: the loop appends to a list created before it, and the
   * KeyError that stops it is swallowed, so the list stays as far as it got.
   */
  function ColumnHeaders(columns: map<string, map<string, string>>, indices: seq<string>): (r: seq<string>)
    ensures |r| <= |indices|
    ensures forall k :: 0 <= k < |r| ==> HasColHeader(columns, indices[k]) && r[k] == columns[indices[k]]["ColHeader"]
    ensures |r| < |indices| ==> !HasColHeader(columns, indices[|r|])
  {
    if indices == [] || !HasColHeader(columns, indices[0]) then []
    else [columns[indices[0]]["ColHeader"]] + ColumnHeaders(columns, indices[1..])
  }

  /** The header from the TableCol entries, or None when the indices cannot be sorted. */
  function TableColElements(m: TableMeta): Option<seq<string>> {
    match SortedHeaderIndices(m)
    case Err(_) => None
    case Ok(indices) => Some(ColumnHeaders(m.columnInfo.value.columns, indices))
  }

  datatype HeaderWarning = MissingHeaderData | InconsistentHeader

  /** The header line and the warning issued while determining it, if any. */
  datatype Header = Header(elements: seq<string>, warning: Option<HeaderWarning>)

  const NoHeaderMessage := "Could not determine " + "header line: stats " + "file contains no " + "table header " + "information. Broken " + "stats file?"

  /**
   * _header_line_elements: ValueError when neither source gives a header; with
   * one source, that one and a warning; with both, the TableCol one, and a
   * warning exactly when they differ.
   */
  function HeaderLineElements(m: TableMeta): (r: Result<Header>)
    ensures r.Err? <==> ColHeadersElements(m).None? && TableColElements(m).None?
    ensures r.Err? ==> r.error == ValueError(NoHeaderMessage)
    ensures r.Ok? && TableColElements(m).Some? ==> r.value.elements == TableColElements(m).value
    ensures r.Ok? && TableColElements(m).None? ==> r.value.elements == ColHeadersElements(m).value
    ensures r.Ok? ==>
      (r.value.warning == Some(MissingHeaderData) <==> ColHeadersElements(m).None? || TableColElements(m).None?)
    ensures r.Ok? ==>
      (r.value.warning == Some(InconsistentHeader) <==>
         ColHeadersElements(m).Some? && TableColElements(m).Some? && ColHeadersElements(m) != TableColElements(m))
  {
    var fromColHeaders := ColHeadersElements(m);
    var fromTableCol := TableColElements(m);
    if fromColHeaders.None? && fromTableCol.None? then Err(ValueError(NoHeaderMessage))
    else if fromColHeaders.None? then Ok(Header(fromTableCol.value, Some(MissingHeaderData)))
    else if fromTableCol.None? then Ok(Header(fromColHeaders.value, Some(MissingHeaderData)))
    else Ok(Header(fromTableCol.value, if fromTableCol != fromColHeaders then Some(InconsistentHeader) else None))
  }

  /**
   * A consistent file: every column has a ColHeader and the ColHeaders line lists
   * them in index order. Then the header is that list and nothing is warned.
   */
  lemma {:induction false} ConsistentHeader(m: TableMeta, sorted: seq<string>)
    requires SortedHeaderIndices(m) == Ok(sorted)
    requires forall k :: 0 <= k < |sorted| ==> HasColHeader(m.columnInfo.value.columns, sorted[k])
    requires "ColHeaders" in m.entries
    requires SplitWs(m.entries["ColHeaders"], None) == ColumnHeaders(m.columnInfo.value.columns, sorted)
    ensures HeaderLineElements(m).Ok?
    ensures HeaderLineElements(m).value.warning.None?
    ensures |HeaderLineElements(m).value.elements| == |sorted|
    ensures HeaderLineElements(m).value.elements == SplitWs(m.entries["ColHeaders"], None)
  {
  }

  /** Without column info the ColHeaders line decides the header, with a warning; without both it is an error. */
  lemma {:induction false} HeaderWithoutColumnInfo(m: TableMeta)
    requires m.columnInfo.None?
    ensures "ColHeaders" in m.entries ==>
      HeaderLineElements(m) == Ok(Header(SplitWs(m.entries["ColHeaders"], None), Some(MissingHeaderData)))
    ensures "ColHeaders" !in m.entries ==> HeaderLineElements(m) == Err(ValueError(NoHeaderMessage))
  {
  }

  // ---------------------------------------------------------------------------
  // _parse_stats_lines

  function Measures(b: seq<string>): (r: seq<seq<string>>)
    ensures |r| == |b|
  {
    seq(|b|, i requires 0 <= i < |b| => Measure(b[i]))
  }

  function TableRows(b: seq<string>): (r: seq<seq<string>>)
    ensures |r| == |b|
  {
    seq(|b|, i requires 0 <= i < |b| => TableRow(b[i]))
  }

  /** The table meta data after the meta lines among `lines`, or the IndexError of the first line with too few fields. */
  function MetaOf(lines: seq<string>): Result<TableMeta> {
    if lines == [] then Ok(EmptyMeta)
    else
      var last := lines[|lines| - 1];
      match MetaOf(lines[..|lines| - 1])
      case Err(e) => Err(e)
      case Ok(m) =>
        if KindOf(last) != MetaLine then Ok(m)
        else if AddFails(last) then Err(IndexError)
        else Ok(Added(m, last))
  }

  /** The table meta data built from any lines keeps its column indices in step with its column map. */
  lemma {:induction false} MetaOfValid(lines: seq<string>)
    requires MetaOf(lines).Ok?
    ensures ValidMeta(MetaOf(lines).value)
  {
    if lines != [] {
      MetaOfValid(lines[..|lines| - 1]);
      var last := lines[|lines| - 1];
      if KindOf(last) == MetaLine {
        AddedKeepsValid(MetaOf(lines[..|lines| - 1]).value, last);
      }
    }
  }

  /** The result dict of _parse_stats_lines: exactly these five entries. */
  datatype StatsResult = StatsResult(
    ignoredLines: seq<string>,
    measures: seq<seq<string>>,
    tableData: seq<seq<string>>,
    tableMetaData: TableMeta,
    tableColumnHeaders: seq<string>)

  /** A parse result and the header warning issued on the way. */
  datatype Parsed = Parsed(stats: StatsResult, warning: Option<HeaderWarning>)

  /** What _parse_stats_lines returns for the lines of a stats file. */
  function ParsedStats(lines: seq<string>): Result<Parsed> {
    match MetaOf(lines)
    case Err(e) => Err(e)
    case Ok(m) =>
      match HeaderLineElements(m)
      case Err(e) => Err(e)
      case Ok(h) =>
        Ok(Parsed(StatsResult(Bucket(lines, IgnoredLine), Measures(Bucket(lines, MeasureLine)),
                              TableRows(Bucket(lines, DataLine)), m, h.elements), h.warning))
  }

  /**
   * _parse_stats_lines: the ignored lines, measures and table rows in file order,
   * the table meta data of the meta lines and the header resolved from it.
   */
  method ParseStatsLines(lines: seq<string>) returns (r: Result<Parsed>)
    ensures r == ParsedStats(lines)
  {
    var ignored: seq<string> := [];
    var measures: seq<seq<string>> := [];
    var rows: seq<seq<string>> := [];
    var meta := new TableMetaData();
    var i := 0;
    while i < |lines|
      invariant 0 <= i <= |lines|
      invariant ignored == Bucket(lines[..i], IgnoredLine)
      invariant measures == Measures(Bucket(lines[..i], MeasureLine))
      invariant rows == TableRows(Bucket(lines[..i], DataLine))
      invariant MetaOf(lines[..i]) == Ok(meta.Snapshot())
    {
      var line := lines[i];
      var kind := KindOf(line);
      ParseStep(lines, i);
      if kind == MetaLine {
        var added := meta.Add(line);
        if added.Err? {
          MetaOfPrefixError(lines, i + 1);
          return Err(added.error);
        }
      } else if kind == MeasureLine {
        measures := measures + [Measure(line)];
      } else if kind == IgnoredLine {
        ignored := ignored + [line];
      } else {
        rows := rows + [TableRow(line)];
      }
      i := i + 1;
    }
    assert lines[..|lines|] == lines;
    var h := HeaderLineElements(meta.Snapshot());
    if h.Err? {
      return Err(h.error);
    }
    r := Ok(Parsed(StatsResult(ignored, measures, rows, meta.Snapshot(), h.value.elements), h.value.warning));
  }

  /** One more line of the file extends the bucket of its kind, and only that one. */
  lemma {:induction false} BucketPrefixStep(lines: seq<string>, i: nat, k: LineKind)
    requires i < |lines|
    ensures Bucket(lines[..i + 1], k) == Bucket(lines[..i], k) + (if KindOf(lines[i]) == k then [lines[i]] else [])
  {
    assert lines[..i + 1][..i] == lines[..i];
  }

  /** What one more line of the file adds to the ignored lines, the measures and the table rows. */
  lemma {:induction false} ParseStep(lines: seq<string>, i: nat)
    requires i < |lines|
    ensures Bucket(lines[..i + 1], IgnoredLine)
      == Bucket(lines[..i], IgnoredLine) + (if KindOf(lines[i]) == IgnoredLine then [lines[i]] else [])
    ensures Measures(Bucket(lines[..i + 1], MeasureLine))
      == Measures(Bucket(lines[..i], MeasureLine)) + (if KindOf(lines[i]) == MeasureLine then [Measure(lines[i])] else [])
    ensures TableRows(Bucket(lines[..i + 1], DataLine))
      == TableRows(Bucket(lines[..i], DataLine)) + (if KindOf(lines[i]) == DataLine then [TableRow(lines[i])] else [])
    ensures KindOf(lines[i]) != MetaLine ==> MetaOf(lines[..i + 1]) == MetaOf(lines[..i])
    ensures KindOf(lines[i]) == MetaLine && MetaOf(lines[..i]).Ok? ==>
      MetaOf(lines[..i + 1]) == if AddFails(lines[i]) then Err(IndexError) else Ok(Added(MetaOf(lines[..i]).value, lines[i]))
  {
    BucketPrefixStep(lines, i, IgnoredLine);
    BucketPrefixStep(lines, i, MeasureLine);
    BucketPrefixStep(lines, i, DataLine);
    var mb, db := Bucket(lines[..i], MeasureLine), Bucket(lines[..i], DataLine);
    assert Measures(mb + [lines[i]]) == Measures(mb) + [Measure(lines[i])];
    assert TableRows(db + [lines[i]]) == TableRows(db) + [TableRow(lines[i])];
    assert lines[..i + 1][..i] == lines[..i];
  }

  /** Once a prefix of the lines fails, the whole parse fails with the same error. */
  lemma {:induction false} MetaOfPrefixError(lines: seq<string>, n: nat)
    requires n <= |lines| && MetaOf(lines[..n]).Err?
    ensures MetaOf(lines) == MetaOf(lines[..n])
    decreases |lines| - n
  {
    if n < |lines| {
      assert lines[..n + 1][..n] == lines[..n];
      MetaOfPrefixError(lines, n + 1);
    } else {
      assert lines[..n] == lines;
    }
  }

  /**
   * A parse that succeeds returns every non-'#' line, split, as a table row in file
   * order, and every '# Measure ' line's fields as a measure.
   */
  lemma {:induction false} ParsedBuckets(lines: seq<string>, line: string)
    requires ParsedStats(lines).Ok?
    ensures (line in lines && !StartsWith(line, "#")) <==> line in Bucket(lines, DataLine)
    ensures (line in lines && StartsWith(line, "# Measure ")) <==> line in Bucket(lines, MeasureLine)
    ensures |ParsedStats(lines).value.stats.tableData| == |Bucket(lines, DataLine)|
  {
    BucketMembership(lines, DataLine, line);
    BucketMembership(lines, MeasureLine, line);
    if StartsWith(line, "# Measure ") {
      assert line[..1] == "# Measure "[..1];
    }
  }

  // ---------------------------------------------------------------------------
  // stats_table_to_numpy: the type-list check

  /**
   * The check stats_table_to_numpy makes before converting the table: the type
   * list must have one type per header column, otherwise ValueError.
   */
  function CheckTypeList(typeCount: nat, header: seq<string>): (r: Result<()>)
    ensures r.Ok? <==> typeCount == |header|
    ensures r.Err? ==> r.error.ValueError?
  {
    if typeCount != |header| then
      Err(ValueError(TypeListErrorText(typeCount, |header|)))
    else Ok(())
  }

  function TypeListErrorText(typeCount: nat, headerCount: nat): string {
    // The text is split where the lemma below reads inside it: the verifier
    // cannot see into string literals longer than about 40 characters.
    "Length of type_list (" + IntToString(typeCount) + ") must match number of "
    + "stat[table_column_headers] (" + IntToString(headerCount) + ")."
  }

  /** The error opens with the type list's length and closes with the header's. */
  lemma {:induction false} TypeListMessage(typeCount: nat, header: seq<string>)
    requires typeCount != |header|
    ensures StartsWith(CheckTypeList(typeCount, header).error.msg, "Length of type_list (" + IntToString(typeCount) + ")")
    ensures EndsWith(CheckTypeList(typeCount, header).error.msg, "(" + IntToString(|header|) + ").")
  {
    var m1, m2 := ") must match number of ", "stat[table_column_headers] (";
    assert m1[0] == ')' && m2[|m2| - 1] == '(';
    BracketedCounts("Length of type_list (", IntToString(typeCount), m1, m2, IntToString(|header|));
  }

  /** A text of the shape pre + "(n1" + ")…(" + "n2)." opens with pre + n1 + ")" and closes with "(" + n2 + ").". */
  lemma {:induction false} BracketedCounts(pre: string, n1: string, m1: string, m2: string, n2: string)
    requires |m1| > 0 && m1[0] == ')'
    requires |m2| > 0 && m2[|m2| - 1] == '('
    ensures StartsWith(pre + n1 + m1 + m2 + n2 + ").", pre + n1 + ")")
    ensures EndsWith(pre + n1 + m1 + m2 + n2 + ").", "(" + n2 + ").")
  {
    var a, b, c := pre + n1 + ")", m1[1..] + m2[..|m2| - 1], "(" + n2 + ").";
    assert m1 == ")" + m1[1..];
    assert m2 == m2[..|m2| - 1] + "(";
    var msg := pre + n1 + m1 + m2 + n2 + ").";
    assert msg == a + (b + c);
    assert msg == (a + b) + c;
    StartsWithConcat(a, b + c);
    EndsWithConcat(a + b, c);
  }
}
