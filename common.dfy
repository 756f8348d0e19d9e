/**
 * virshx's shared definitions (virshx/common.py): its own version triple,
 * which unlike fvirt's accepts any integers, and its plain-text table
 * renderer. The `unit_to_bytes` copy in the same file is textually
 * identical to virshx/util/units.py and is modelled once, by `Units`.
 */
module Common {
  import opened Wrappers
  import opened PyStr
  import opened TableLayout

  /** `VersionNumber(major, minor, release)`: stored as given, no range check. */
  datatype VersionNumber = VersionNumber(major: int, minor: int, release: int)

  /** `v[idx]`: components 0, 1 and 2; any other index raises IndexError. */
  function GetItem(v: VersionNumber, idx: int): (r: Result<int>)
    ensures r.Ok? <==> 0 <= idx < 3
    ensures r.Ok? ==> r.value == [v.major, v.minor, v.release][idx]
    ensures r.Err? ==> r.error == IndexError
  {
    match idx
    case 0 => Ok(v.major)
    case 1 => Ok(v.minor)
    case 2 => Ok(v.release)
    case _ => Err(IndexError)
  }

  /** `repr(v)` and `str(v)`. */
  function Str(v: VersionNumber): string
  {
    IntStr(v.major) + "." + IntStr(v.minor) + "." + IntStr(v.release)
  }

  /** The string form splits on its dots into the three components, each of which `int` reads back. */
  lemma StrRoundTrip(v: VersionNumber)
    ensures Split(Str(v), '.') == [IntStr(v.major), IntStr(v.minor), IntStr(v.release)]
    ensures forall k :: 0 <= k < 3 ==> ParseInt(Split(Str(v), '.')[k]) == Some(GetItem(v, k).value)
  {
    var a, b, c := IntStr(v.major), IntStr(v.minor), IntStr(v.release);
    IntStrNoSep(v.major, '.');
    IntStrNoSep(v.minor, '.');
    IntStrNoSep(v.release, '.');
    assert Str(v) == a + ['.'] + (b + ['.'] + c);
    SplitAfter(a, '.', b + ['.'] + c);
    SplitAfter(b, '.', c);
    SplitNoSep(c, '.');
    ParseIntStr(v.major);
    ParseIntStr(v.minor);
    ParseIntStr(v.release);
  }

  // ---------------------------------------------------------------------
  // render_table(items, columns)

  /** Column `i` is as wide as its title and its widest cell. */
  function Widths(items: seq<seq<string>>, columns: seq<Column>): (w: seq<nat>)
    requires forall j :: 0 <= j < |items| ==> |items[j]| >= |columns|
    ensures |w| == |columns|
  {
    seq(|columns|, i requires 0 <= i < |columns| => ColMax(items, i, |columns[i].title|))
  }

  /** The header line, the rule of dashes and one line per row. */
  function Lines(items: seq<seq<string>>, columns: seq<Column>): seq<string>
    requires RowsMatch(items, columns)
  {
    var w := Widths(items, columns);
    [Line(Titles(columns), Aligns(columns), w, " "), Repeat('-', Sum(w) + 4)]
      + RowLines(items, Aligns(columns), w, " ")
  }

  /** What `render_table` returns or raises. */
  function RenderSpec(items: seq<seq<string>>, columns: seq<Column>): Result<string>
  {
    if RowsMatch(items, columns) then Ok(Unlines(Lines(items, columns))) else Err(IndexError)
  }

  /**
   * The `column_sizes` comprehension: for each column the largest of its
   * title's length and its cells' lengths; a row with too few cells raises
   * IndexError.
   */
  method ColumnSizes(items: seq<seq<string>>, columns: seq<Column>) returns (r: Result<seq<nat>>)
    ensures r.Ok? <==> forall j :: 0 <= j < |items| ==> |items[j]| >= |columns|
    ensures r.Ok? ==> r.value == Widths(items, columns)
    ensures r.Err? ==> r.error == IndexError
  {
    var sizes: seq<nat> := [];
    var i := 0;
    while i < |columns|
      invariant 0 <= i <= |columns| && |sizes| == i
      invariant forall j :: 0 <= j < |items| ==> |items[j]| >= i
      invariant forall k :: 0 <= k < i ==> sizes[k] == ColMax(items, k, |columns[k].title|)
    {
      var m := |columns[i].title|;
      var j := 0;
      while j < |items|
        invariant 0 <= j <= |items|
        invariant forall jj :: 0 <= jj < j ==> |items[jj]| > i
        invariant m == ColMax(items[..j], i, |columns[i].title|)
      {
        if |items[j]| <= i {
          return Err(IndexError);
        }
        var c := |items[j][i]|;
        if c > m {
          m := c;
        }
        assert items[..j + 1][..j] == items[..j];
        j := j + 1;
      }
      assert items[..j] == items;
      sizes := sizes + [m];
      i := i + 1;
    }
    return Ok(sizes);
  }

  /**
   * `render_table(items, columns)`: column widths first, then the header and
   * the rule, then one line per row.
   */
  method RenderTable(items: seq<seq<string>>, columns: seq<Column>) returns (r: Result<string>)
    ensures r == RenderSpec(items, columns)
  {
    var sized := ColumnSizes(items, columns);
    if sized.Err? {
      return Err(sized.error);
    }
    var sizes := sized.value;
    var head := AppendCells("", Titles(columns), columns, sizes, " ");
    var header := head.value;
    var rule := Repeat('-', Sum(sizes) + 4);
    var ret := header + "\n" + rule + "\n";
    var rows := AppendRows(ret, items, columns, sizes, " ");
    if rows.Err? {
      return Err(rows.error);
    }
    Assemble(items, columns, header, rule, rows.value);
    return Ok(rows.value);
  }

  /** The header, the rule and the rows, appended in turn, are the text of `Lines`. */
  lemma Assemble(items: seq<seq<string>>, columns: seq<Column>, header: string, rule: string, text: string)
    requires RowsMatch(items, columns)
    requires header == "" + Line(Titles(columns), Aligns(columns), Widths(items, columns), " ")
    requires rule == Repeat('-', Sum(Widths(items, columns)) + 4)
    requires text == header + "\n" + rule + "\n"
      + Unlines(RowLines(items, Aligns(columns), Widths(items, columns), " "))
    ensures text == Unlines(Lines(items, columns))
  {
    var rows := RowLines(items, Aligns(columns), Widths(items, columns), " ");
    assert header == Line(Titles(columns), Aligns(columns), Widths(items, columns), " ");
    assert Lines(items, columns) == [header, rule] + rows;
    TwoLines(header, rule);
    UnlinesAppend([header, rule], rows);
  }

  // ---------------------------------------------------------------------
  // What the rendered table looks like.

  /** Column `i` is exactly as wide as the widest of its title and its cells. */
  lemma WidthIsMax(items: seq<seq<string>>, columns: seq<Column>, i: nat)
    requires RowsMatch(items, columns) && i < |columns|
    ensures var w := Widths(items, columns)[i];
      && w >= |columns[i].title|
      && (forall j :: 0 <= j < |items| ==> w >= |items[j][i]|)
      && (w == |columns[i].title| || exists j :: 0 <= j < |items| && w == |items[j][i]|)
  {
    ColMaxIsMax(items, i, |columns[i].title|);
  }

  /** Titles and cells all fit their columns, so padding never has to truncate or overflow. */
  lemma AllFit(items: seq<seq<string>>, columns: seq<Column>)
    requires RowsMatch(items, columns)
    ensures Fits(Titles(columns), Widths(items, columns))
    ensures forall j :: 0 <= j < |items| ==> Fits(items[j], Widths(items, columns))
  {
    forall i | 0 <= i < |columns| {
      WidthIsMax(items, columns, i);
    }
  }

  /**
   * The table has a header line, a rule and one line per row; the header is
   * one space plus the width of each column long, and the rule is four dashes
   * longer than the widths together, whatever the number of columns.
   */
  lemma HeaderShape(items: seq<seq<string>>, columns: seq<Column>)
    requires RowsMatch(items, columns)
    ensures var w := Widths(items, columns);
      var lines := Lines(items, columns);
      && |lines| == |items| + 2
      && |lines[0]| == Sum(w) + |columns|
      && lines[1] == Repeat('-', Sum(w) + 4)
  {
    var w := Widths(items, columns);
    var header := Line(Titles(columns), Aligns(columns), w, " ");
    LinesHead(items, columns);
    AllFit(items, columns);
    assert w[..|columns|] == w;
    LineLength(Titles(columns), Aligns(columns), w, " ");
    assert |header| == Sum(w) + |columns| * |" "|;
  }

  lemma LinesHead(items: seq<seq<string>>, columns: seq<Column>)
    requires RowsMatch(items, columns)
    ensures var w := Widths(items, columns);
      var lines := Lines(items, columns);
      && |lines| == |items| + 2
      && lines[0] == Line(Titles(columns), Aligns(columns), Widths(items, columns), " ")
      && lines[1] == Repeat('-', Sum(w) + 4)
  {
  }

  /** Line `j + 2` renders row `j`: one space plus the width of each column long. */
  lemma RowShape(items: seq<seq<string>>, columns: seq<Column>, j: nat)
    requires RowsMatch(items, columns) && j < |items|
    ensures var w := Widths(items, columns);
      var line := Lines(items, columns)[j + 2];
      && line == Line(items[j], Aligns(columns), w, " ")
      && |line| == Sum(w) + |columns|
  {
    var w := Widths(items, columns);
    AllFit(items, columns);
    assert w[..|columns|] == w;
    RowLinesAt(items, Aligns(columns), w, " ", j);
    LineLength(items[j], Aligns(columns), w, " ");
  }

  /** When no title or cell holds a newline, the text has exactly `len(items) + 2` newlines. */
  lemma NewlineCount(items: seq<seq<string>>, columns: seq<Column>)
    requires RowsMatch(items, columns)
    requires forall k :: 0 <= k < |columns| ==> '\n' !in columns[k].title
    requires forall j, k :: 0 <= j < |items| && 0 <= k < |items[j]| ==> '\n' !in items[j][k]
    ensures multiset(Unlines(Lines(items, columns)))['\n'] == |items| + 2
  {
    var w := Widths(items, columns);
    var right := Aligns(columns);
    var lines := Lines(items, columns);
    var rows := RowLines(items, right, w, " ");
    assert lines == [lines[0], lines[1]] + rows;
    LineAvoids(Titles(columns), right, w, " ", '\n');
    RuleAvoids(Sum(w) + 4);
    forall j | 0 <= j < |items| ensures '\n' !in rows[j] {
      RowLinesAt(items, right, w, " ", j);
      LineAvoids(items[j], right, w, " ", '\n');
    }
    UnlinesNewlines(lines);
  }

  lemma RuleAvoids(n: nat)
    ensures '\n' !in Repeat('-', n)
  {
    assert forall k :: 0 <= k < n ==> Repeat('-', n)[k] != '\n';
  }
}
