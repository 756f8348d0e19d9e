/**
 * Text layout shared by the two table renderers (virshx/common.py and
 * fvirt/util/tables.py): column descriptions, padded cells, lines made of
 * a gap followed by a padded cell per column, and newline-terminated text.
 */
module TableLayout {
  import opened Wrappers
  import opened PyStr

  /**
   * A table column. Both renderers declare the same record (title, property
   * name, alignment); the colouring callback of fvirt's variant is taken to be
   * the identity on strings.
   */
  datatype Column = Column(title: string, prop: string, rightAlign: bool)

  function Titles(columns: seq<Column>): (t: seq<string>)
    ensures |t| == |columns| && forall k :: 0 <= k < |columns| ==> t[k] == columns[k].title
  {
    seq(|columns|, k requires 0 <= k < |columns| => columns[k].title)
  }

  function Aligns(columns: seq<Column>): (a: seq<bool>)
    ensures |a| == |columns| && forall k :: 0 <= k < |columns| ==> a[k] == columns[k].rightAlign
  {
    seq(|columns|, k requires 0 <= k < |columns| => columns[k].rightAlign)
  }

  /** Every row has exactly one cell per column; otherwise both renderers raise IndexError. */
  predicate RowsMatch(items: seq<seq<string>>, columns: seq<Column>)
  {
    forall j :: 0 <= j < |items| ==> |items[j]| == |columns|
  }

  /** `f"{s:>{w}}"` or `f"{s:<{w}}"`, by the column's alignment. */
  function Pad(s: string, w: nat, right: bool): (r: string)
    ensures |r| == if |s| >= w then |s| else w
  {
    if right then RJust(s, w) else LJust(s, w)
  }

  /**
   * The largest of `floor` and the length of cell `i` over all rows: the
   * width a column needs.
   */
  function ColMax(rows: seq<seq<string>>, i: nat, floor: nat): nat
    requires forall j :: 0 <= j < |rows| ==> |rows[j]| > i
    decreases |rows|
  {
    if rows == [] then floor
    else
      var m := ColMax(rows[..|rows| - 1], i, floor);
      var c := |rows[|rows| - 1][i]|;
      if c > m then c else m
  }

  /** The width is an upper bound of the floor and of every cell, and is attained by one of them. */
  lemma {:induction false} ColMaxIsMax(rows: seq<seq<string>>, i: nat, floor: nat)
    requires forall j :: 0 <= j < |rows| ==> |rows[j]| > i
    ensures ColMax(rows, i, floor) >= floor
    ensures forall j :: 0 <= j < |rows| ==> ColMax(rows, i, floor) >= |rows[j][i]|
    ensures ColMax(rows, i, floor) == floor
      || exists j :: 0 <= j < |rows| && ColMax(rows, i, floor) == |rows[j][i]|
    decreases |rows|
  {
    if rows != [] {
      var init := rows[..|rows| - 1];
      ColMaxIsMax(init, i, floor);
      assert forall j :: 0 <= j < |init| ==> init[j] == rows[j];
    }
  }

  /** `sum(widths)`. */
  function Sum(widths: seq<nat>): nat
    decreases |widths|
  {
    if widths == [] then 0 else Sum(widths[..|widths| - 1]) + widths[|widths| - 1]
  }

  /** Every cell fits in its column's width. */
  predicate Fits(cells: seq<string>, widths: seq<nat>)
  {
    |cells| <= |widths| && forall k :: 0 <= k < |cells| ==> |cells[k]| <= widths[k]
  }

  /** The cells of one line, each preceded by `gap` and padded to its column's width. */
  function Line(cells: seq<string>, right: seq<bool>, widths: seq<nat>, gap: string): string
    requires |cells| <= |right| && |cells| <= |widths|
    decreases |cells|
  {
    if cells == [] then ""
    else
      var k := |cells| - 1;
      Line(cells[..k], right, widths, gap) + gap + Pad(cells[k], widths[k], right[k])
  }

  /** A line whose cells fit is exactly as long as its gaps plus its widths. */
  lemma {:induction false} LineLength(cells: seq<string>, right: seq<bool>, widths: seq<nat>, gap: string)
    requires |cells| <= |right| && Fits(cells, widths)
    ensures |Line(cells, right, widths, gap)| == Sum(widths[..|cells|]) + |cells| * |gap|
    decreases |cells|
  {
    if cells != [] {
      var k := |cells| - 1;
      LineLength(cells[..k], right, widths, gap);
      var ws := widths[..|cells|];
      assert ws[..k] == widths[..k];
      assert Sum(ws) == Sum(widths[..k]) + widths[k];
      assert |Pad(cells[k], widths[k], right[k])| == widths[k];
      MulSucc(k, |gap|);
    }
  }

  lemma MulSucc(k: nat, g: nat)
    ensures (k + 1) * g == k * g + g
  {
  }

  /**
   * The line of the first `j` cells is a prefix of the whole line; with the
   * definition of `Line` this places each padded cell right after the cells
   * before it and one gap.
   */
  lemma {:induction false} LinePrefix(cells: seq<string>, right: seq<bool>, widths: seq<nat>, gap: string, j: nat)
    requires |cells| <= |right| && |cells| <= |widths| && j <= |cells|
    ensures Line(cells[..j], right, widths, gap) <= Line(cells, right, widths, gap)
    decreases |cells| - j
  {
    if j < |cells| {
      LinePrefix(cells, right, widths, gap, j + 1);
      var longer := cells[..j + 1];
      assert longer[..j] == cells[..j];
      PrefixTrans(Line(cells[..j], right, widths, gap), Line(longer, right, widths, gap), Line(cells, right, widths, gap));
    } else {
      assert cells[..j] == cells;
    }
  }

  lemma PrefixTrans(a: string, b: string, c: string)
    requires a <= b && b <= c
    ensures a <= c
  {
    assert c[..|b|][..|a|] == c[..|a|];
  }

  /** One line per row. */
  function RowLines(rows: seq<seq<string>>, right: seq<bool>, widths: seq<nat>, gap: string): (r: seq<string>)
    requires forall j :: 0 <= j < |rows| ==> |rows[j]| <= |right| && |rows[j]| <= |widths|
    ensures |r| == |rows|
    decreases |rows|
  {
    if rows == [] then []
    else RowLines(rows[..|rows| - 1], right, widths, gap) + [Line(rows[|rows| - 1], right, widths, gap)]
  }

  lemma {:induction false} RowLinesAt(rows: seq<seq<string>>, right: seq<bool>, widths: seq<nat>, gap: string, j: nat)
    requires forall j :: 0 <= j < |rows| ==> |rows[j]| <= |right| && |rows[j]| <= |widths|
    requires j < |rows|
    ensures RowLines(rows, right, widths, gap)[j] == Line(rows[j], right, widths, gap)
    decreases |rows|
  {
    if j < |rows| - 1 {
      RowLinesAt(rows[..|rows| - 1], right, widths, gap, j);
    }
  }

  /**
   * The inner loop of both renderers: appends, for each cell, the gap and the
   * cell padded to its column's width and aligned as the column says. A cell
   * beyond the last column raises IndexError when it looks its column up.
   */
  method AppendCells(text: string, cells: seq<string>, columns: seq<Column>, widths: seq<nat>, gap: string)
    returns (r: Result<string>)
    requires |widths| == |columns|
    ensures r.Ok? <==> |cells| <= |columns|
    ensures r.Ok? ==> r.value == text + Line(cells, Aligns(columns), widths, gap)
    ensures r.Err? ==> r.error == IndexError
  {
    var ret := text;
    var k := 0;
    while k < |cells|
      invariant 0 <= k <= |cells| && k <= |columns|
      invariant ret == text + Line(cells[..k], Aligns(columns), widths, gap)
    {
      if k >= |columns| {
        return Err(IndexError);
      }
      CellStep(text, cells, Aligns(columns), widths, gap, k, ret);
      ret := ret + gap + Pad(cells[k], widths[k], columns[k].rightAlign);
      k := k + 1;
    }
    assert cells[..k] == cells;
    return Ok(ret);
  }

  lemma CellStep(text: string, cells: seq<string>, right: seq<bool>, widths: seq<nat>, gap: string,
                 k: nat, before: string)
    requires k < |cells| && k < |right| && k < |widths|
    requires before == text + Line(cells[..k], right, widths, gap)
    ensures before + gap + Pad(cells[k], widths[k], right[k]) == text + Line(cells[..k + 1], right, widths, gap)
  {
    LineSnoc(cells, right, widths, gap, k);
    Assoc4(text, Line(cells[..k], right, widths, gap), gap, Pad(cells[k], widths[k], right[k]));
  }

  lemma LineSnoc(cells: seq<string>, right: seq<bool>, widths: seq<nat>, gap: string, k: nat)
    requires k < |cells| && k < |right| && k < |widths|
    ensures Line(cells[..k + 1], right, widths, gap)
      == Line(cells[..k], right, widths, gap) + gap + Pad(cells[k], widths[k], right[k])
  {
    assert cells[..k + 1][..k] == cells[..k];
  }

  lemma Assoc4(a: string, b: string, c: string, d: string)
    ensures a + b + c + d == a + (b + c + d)
  {
  }

  /** Padding adds only spaces. */
  lemma PadAvoids(s: string, w: nat, right: bool, c: char)
    requires c != ' ' && c !in s
    ensures c !in Pad(s, w, right)
  {
    if |s| < w {
      var fill := Repeat(' ', w - |s|);
      assert c !in fill;
      assert Pad(s, w, right) == if right then fill + s else s + fill;
    }
  }

  /** A character other than a space that occurs in no cell and not in the gap does not occur in the line. */
  lemma {:induction false} LineAvoids(cells: seq<string>, right: seq<bool>, widths: seq<nat>, gap: string, c: char)
    requires |cells| <= |right| && |cells| <= |widths|
    requires c != ' ' && c !in gap
    requires forall k :: 0 <= k < |cells| ==> c !in cells[k]
    ensures c !in Line(cells, right, widths, gap)
    decreases |cells|
  {
    if cells != [] {
      var k := |cells| - 1;
      LineAvoids(cells[..k], right, widths, gap, c);
      PadAvoids(cells[k], widths[k], right[k], c);
    }
  }

  /** The lines joined, each followed by a newline. */
  function Unlines(lines: seq<string>): string
    decreases |lines|
  {
    if lines == [] then "" else Unlines(lines[..|lines| - 1]) + lines[|lines| - 1] + "\n"
  }

  /** Appending a line to the list appends it, and a newline, to the text. */
  lemma UnlinesSnoc(lines: seq<string>, line: string)
    ensures Unlines(lines + [line]) == Unlines(lines) + line + "\n"
  {
    assert (lines + [line])[..|lines|] == lines;
  }

  /** Lines that contain no newline give a text with one newline per line. */
  lemma {:induction false} UnlinesNewlines(lines: seq<string>)
    requires forall k :: 0 <= k < |lines| ==> '\n' !in lines[k]
    ensures multiset(Unlines(lines))['\n'] == |lines|
    decreases |lines|
  {
    if lines != [] {
      var init := lines[..|lines| - 1];
      UnlinesNewlines(init);
      var last := lines[|lines| - 1];
      assert multiset(last)['\n'] == 0;
      assert multiset(Unlines(lines)) == multiset(Unlines(init)) + multiset(last) + multiset("\n");
    }
  }

  lemma TwoLines(a: string, b: string)
    ensures a + "\n" + b + "\n" == Unlines([a, b])
  {
    assert [a, b][..1] == [a];
    assert [a][..0] == [];
    assert Unlines([a]) == a + "\n";
  }

  /** Joining two lists of lines joins their texts. */
  lemma {:induction false} UnlinesAppend(a: seq<string>, b: seq<string>)
    ensures Unlines(a + b) == Unlines(a) + Unlines(b)
    decreases |b|
  {
    if b == [] {
      assert a + b == a;
    } else {
      var init := b[..|b| - 1];
      UnlinesAppend(a, init);
      assert (a + b)[..|a + b| - 1] == a + init;
    }
  }

  /**
   * The row loop of both renderers: each row's cells, then a newline. A row
   * with more cells than there are columns raises IndexError.
   */
  method AppendRows(text: string, rows: seq<seq<string>>, columns: seq<Column>, widths: seq<nat>, gap: string)
    returns (r: Result<string>)
    requires |widths| == |columns|
    ensures r.Ok? <==> forall j :: 0 <= j < |rows| ==> |rows[j]| <= |columns|
    ensures r.Ok? ==> r.value == text + Unlines(RowLines(rows, Aligns(columns), widths, gap))
    ensures r.Err? ==> r.error == IndexError
  {
    var ret := text;
    var j := 0;
    while j < |rows|
      invariant 0 <= j <= |rows|
      invariant forall jj :: 0 <= jj < j ==> |rows[jj]| <= |columns|
      invariant ret == text + Unlines(RowLines(rows[..j], Aligns(columns), widths, gap))
    {
      var next := AppendCells(ret, rows[j], columns, widths, gap);
      if next.Err? {
        return Err(next.error);
      }
      RowStep(text, rows, Aligns(columns), widths, gap, j, ret, next.value);
      ret := next.value + "\n";
      j := j + 1;
    }
    assert rows[..j] == rows;
    return Ok(ret);
  }

  lemma RowStep(text: string, rows: seq<seq<string>>, right: seq<bool>, widths: seq<nat>, gap: string,
                j: nat, before: string, after: string)
    requires j < |rows|
    requires forall jj :: 0 <= jj <= j ==> |rows[jj]| <= |right| && |rows[jj]| <= |widths|
    requires before == text + Unlines(RowLines(rows[..j], right, widths, gap))
    requires after == before + Line(rows[j], right, widths, gap)
    ensures after + "\n" == text + Unlines(RowLines(rows[..j + 1], right, widths, gap))
  {
    var lines := RowLines(rows[..j], right, widths, gap);
    var line := Line(rows[j], right, widths, gap);
    RowLinesSnoc(rows, right, widths, gap, j);
    UnlinesSnoc(lines, line);
    AppendAssoc(text, Unlines(lines), line);
  }

  lemma RowLinesSnoc(rows: seq<seq<string>>, right: seq<bool>, widths: seq<nat>, gap: string, j: nat)
    requires j < |rows|
    requires forall jj :: 0 <= jj <= j ==> |rows[jj]| <= |right| && |rows[jj]| <= |widths|
    ensures RowLines(rows[..j + 1], right, widths, gap)
      == RowLines(rows[..j], right, widths, gap) + [Line(rows[j], right, widths, gap)]
  {
    assert rows[..j + 1][..j] == rows[..j];
  }

  lemma AppendAssoc(text: string, u: string, l: string)
    ensures text + u + l + "\n" == text + (u + l + "\n")
  {
  }
}
