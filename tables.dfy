/**
 * fvirt's tabular output (fvirt/util/tables.py): parsing a `--columns`
 * option, listing the known columns, turning entities into rows of cells,
 * and rendering rows as an aligned, right-stripped table.
 *
 * A column mapping is modelled by the list of its keys, in mapping order,
 * where only the keys matter, and by a `map` where columns are looked up.
 * Terminal colouring is the identity and `TERM.length` is `len`.
 */
module Tables {
  import opened Wrappers
  import opened PyStr
  import opened TableLayout

  // ---------------------------------------------------------------------
  // ColumnsParam.convert

  /** What click hands to `convert`: the raw option text, or an already converted list. */
  datatype OptionValue = Text(s: string) | Names(names: seq<string>)

  /** `[x.lstrip().rstrip() for x in value.split(',')]`. */
  function Pieces(s: string): (p: seq<string>)
    ensures |p| == |Split(s, ',')|
    ensures forall k :: 0 <= k < |p| ==> p[k] == Strip(Split(s, ',')[k])
  {
    var parts := Split(s, ',');
    seq(|parts|, k requires 0 <= k < |parts| => Strip(parts[k]))
  }

  /** Every entry names a known column. */
  predicate AllKnown(names: seq<string>, keys: seq<string>)
  {
    forall k :: 0 <= k < |names| ==> names[k] in keys
  }

  /**
   * `convert(value)`: `'list'` passes through unvalidated, `'all'` selects
   * every column, other text is a comma-separated list; the result must name
   * only known columns, else the parameter is rejected.
   */
  function Convert(value: OptionValue, keys: seq<string>): (r: Result<seq<string>>)
    ensures value == Text("list") ==> r == Ok(["list"])
    ensures value == Text("all") ==> r == Ok(keys)
    ensures value != Text("list") && r.Ok? ==> AllKnown(r.value, keys)
    ensures r.Err? ==> r.error == BadParameter
  {
    if value == Text("list") then Ok(["list"])
    else
      var ret := match value
        case Text(s) => if s == "all" then keys else Pieces(s)
        case Names(names) => names;
      if AllKnown(ret, keys) then Ok(ret) else Err(BadParameter)
  }

  /** Other text is accepted exactly when each trimmed piece is a known column, and yields the pieces in order. */
  lemma ConvertText(s: string, keys: seq<string>)
    requires s != "list" && s != "all"
    ensures Convert(Text(s), keys).Ok? <==> AllKnown(Pieces(s), keys)
    ensures Convert(Text(s), keys).Ok? ==> Convert(Text(s), keys).value == Pieces(s)
    ensures |Pieces(s)| == multiset(s)[','] + 1
  {
    SplitCount(s, ',');
  }

  /** A list of known, trimmed, comma-free names, written out with commas, converts back to itself. */
  lemma ConvertJoined(names: seq<string>, keys: seq<string>)
    requires |names| >= 1 && AllKnown(names, keys)
    requires forall k :: 0 <= k < |names| ==> ',' !in names[k]
    requires forall k :: 0 <= k < |names| ==>
      names[k] == [] || (!IsSpace(names[k][0]) && !IsSpace(names[k][|names[k]| - 1]))
    requires Join(names, ",") != "list" && Join(names, ",") != "all"
    ensures Convert(Text(Join(names, ",")), keys) == Ok(names)
  {
    JoinSplit(names, ',');
    forall k | 0 <= k < |names| ensures Strip(names[k]) == names[k] {
      StripIdentity(names[k]);
    }
    assert Pieces(Join(names, ",")) == names;
  }

  // ---------------------------------------------------------------------
  // column_info

  function Bullets(keys: seq<string>): (b: seq<string>)
    ensures |b| == |keys|
    decreases |keys|
  {
    if keys == [] then [] else Bullets(keys[..|keys| - 1]) + ["  - " + keys[|keys| - 1]]
  }

  lemma {:induction false} BulletAt(keys: seq<string>, k: nat)
    requires k < |keys|
    ensures Bullets(keys)[k] == "  - " + keys[k]
    decreases |keys|
  {
    if k < |keys| - 1 {
      BulletAt(keys[..|keys| - 1], k);
    }
  }

  /** The lines of the column listing: a heading, one bullet per column, a blank line and the defaults. */
  function InfoLines(keys: seq<string>, defaults: seq<string>): seq<string>
  {
    ["Recognized columns:"] + Bullets(keys) + ["", "Default columns: " + Join(defaults, ", ")]
  }

  /** `column_info(columns, defaults)`. */
  method ColumnInfo(keys: seq<string>, defaults: seq<string>) returns (output: string)
    ensures output == Unlines(InfoLines(keys, defaults))
    ensures forall k :: 0 <= k < |keys| ==> InfoLines(keys, defaults)[k + 1] == "  - " + keys[k]
  {
    output := "Recognized columns:\n";
    UnlinesSnoc([], "Recognized columns:");
    var i := 0;
    while i < |keys|
      invariant 0 <= i <= |keys|
      invariant output == Unlines(["Recognized columns:"] + Bullets(keys[..i]))
    {
      BulletStep(keys, i, output);
      output := output + "  - " + keys[i] + "\n";
      i := i + 1;
    }
    assert keys[..i] == keys;
    InfoTail(["Recognized columns:"] + Bullets(keys), Join(defaults, ", "), output);
    output := output + "\nDefault columns: " + Join(defaults, ", ") + "\n";
    forall k | 0 <= k < |keys| ensures InfoLines(keys, defaults)[k + 1] == "  - " + keys[k] {
      BulletAt(keys, k);
    }
  }

  lemma BulletStep(keys: seq<string>, i: nat, before: string)
    requires i < |keys|
    requires before == Unlines(["Recognized columns:"] + Bullets(keys[..i]))
    ensures before + "  - " + keys[i] + "\n" == Unlines(["Recognized columns:"] + Bullets(keys[..i + 1]))
  {
    assert keys[..i + 1][..i] == keys[..i];
    var lines := ["Recognized columns:"] + Bullets(keys[..i]);
    assert ["Recognized columns:"] + Bullets(keys[..i + 1]) == lines + ["  - " + keys[i]];
    UnlinesSnoc(lines, "  - " + keys[i]);
  }

  lemma InfoTail(lines: seq<string>, joined: string, before: string)
    requires before == Unlines(lines)
    ensures before + "\nDefault columns: " + joined + "\n" == Unlines(lines + ["", "Default columns: " + joined])
  {
    UnlinesSnoc(lines, "");
    UnlinesSnoc(lines + [""], "Default columns: " + joined);
    assert lines + [""] + ["Default columns: " + joined] == lines + ["", "Default columns: " + joined];
  }

  // ---------------------------------------------------------------------
  // tabulate_entities

  /** An entity, seen through the attributes it has (already rendered as text). */
  type Entity = map<string, string>

  /** `getattr(entity, prop)`, with `'-'` when the attribute is missing. */
  function Cell(entity: Entity, prop: string): string
  {
    if prop in entity then entity[prop] else "-"
  }

  /**
   * `tabulate_entities(entities, columns, selected_cols)`: one row per
   * entity and one cell per selected column, in order. Looking up a
   * selected name that is not a column raises KeyError, which can only
   * happen when there is at least one entity.
   */
  method TabulateEntities(entities: seq<Entity>, columns: map<string, Column>, selected: seq<string>)
    returns (r: Result<seq<seq<string>>>)
    ensures r.Err? <==> |entities| > 0 && exists c :: 0 <= c < |selected| && selected[c] !in columns
    ensures r.Err? ==> r.error == KeyError
    ensures r.Ok? ==> |r.value| == |entities|
    ensures r.Ok? ==> forall e :: 0 <= e < |entities| ==> |r.value[e]| == |selected|
    ensures r.Ok? ==> forall e, c :: 0 <= e < |entities| && 0 <= c < |selected| ==>
      selected[c] in columns && r.value[e][c] == Cell(entities[e], columns[selected[c]].prop)
  {
    var ret: seq<seq<string>> := [];
    var e := 0;
    while e < |entities|
      invariant 0 <= e <= |entities| && |ret| == e
      invariant e > 0 ==> forall c :: 0 <= c < |selected| ==> selected[c] in columns
      invariant forall x :: 0 <= x < e ==> |ret[x]| == |selected|
      invariant forall x, c :: 0 <= x < e && 0 <= c < |selected| ==>
        selected[c] in columns && ret[x][c] == Cell(entities[x], columns[selected[c]].prop)
    {
      var items: seq<string> := [];
      var c := 0;
      while c < |selected|
        invariant 0 <= c <= |selected| && |items| == c
        invariant forall y :: 0 <= y < c ==>
          selected[y] in columns && items[y] == Cell(entities[e], columns[selected[y]].prop)
      {
        if selected[c] !in columns {
          return Err(KeyError);
        }
        var prop := Cell(entities[e], columns[selected[c]].prop);
        items := items + [prop];
        c := c + 1;
      }
      ret := ret + [items];
      e := e + 1;
    }
    return Ok(ret);
  }

  // ---------------------------------------------------------------------
  // render_table(items, columns, headings)

  /** The widest cell of each column (`max` of the cell lengths). */
  function CellWidths(items: seq<seq<string>>, columns: seq<Column>): (w: seq<nat>)
    requires forall j :: 0 <= j < |items| ==> |items[j]| >= |columns|
    ensures |w| == |columns|
  {
    seq(|columns|, i requires 0 <= i < |columns| => ColMax(items, i, 0))
  }

  function Max(a: nat, b: nat): nat { if a >= b then a else b }

  /** With headings, each width is raised to its title's length. */
  function TitledWidths(widths: seq<nat>, columns: seq<Column>): (w: seq<nat>)
    requires |widths| == |columns|
    ensures |w| == |columns|
  {
    seq(|columns|, i requires 0 <= i < |columns| => Max(widths[i], |columns[i].title|))
  }

  function TableWidths(items: seq<seq<string>>, columns: seq<Column>, headings: bool): (w: seq<nat>)
    requires forall j :: 0 <= j < |items| ==> |items[j]| >= |columns|
    ensures |w| == |columns|
  {
    var w := CellWidths(items, columns);
    if headings then TitledWidths(w, columns) else w
  }

  /** With headings: the header, a rule as long as the header, then the rows; without: just the rows. */
  function TableLines(items: seq<seq<string>>, columns: seq<Column>, headings: bool): seq<string>
    requires RowsMatch(items, columns)
  {
    var w := TableWidths(items, columns, headings);
    var right := Aligns(columns);
    (if headings then [Line(Titles(columns), right, w, "  "), Repeat('-', Sum(w) + 2 * |w|)] else [])
      + RowLines(items, right, w, "  ")
  }

  /**
   * What `render_table` returns or raises: `max` of no cells raises
   * ValueError when there are columns but no rows; a row whose length differs
   * from the number of columns raises IndexError; otherwise the lines, right-stripped.
   */
  function RenderSpec(items: seq<seq<string>>, columns: seq<Column>, headings: bool): Result<string>
  {
    if |columns| > 0 && |items| == 0 then Err(ValueError)
    else if !RowsMatch(items, columns) then Err(IndexError)
    else Ok(RStrip(Unlines(TableLines(items, columns, headings))))
  }

  /** The `column_sizes` comprehension over the cells. */
  method CellSizes(items: seq<seq<string>>, columns: seq<Column>) returns (r: Result<seq<nat>>)
    ensures r.Ok? <==> (|columns| == 0 || |items| > 0) && forall j :: 0 <= j < |items| ==> |items[j]| >= |columns|
    ensures r.Ok? ==> r.value == CellWidths(items, columns)
    ensures r.Err? ==> r.error == (if |items| == 0 then ValueError else IndexError)
  {
    var sizes: seq<nat> := [];
    var i := 0;
    while i < |columns|
      invariant 0 <= i <= |columns| && |sizes| == i
      invariant forall j :: 0 <= j < |items| ==> |items[j]| >= i
      invariant forall k :: 0 <= k < i ==> sizes[k] == ColMax(items, k, 0)
      invariant i > 0 ==> |items| > 0
    {
      var m := 0;
      var j := 0;
      while j < |items|
        invariant 0 <= j <= |items|
        invariant forall jj :: 0 <= jj < j ==> |items[jj]| > i
        invariant m == ColMax(items[..j], i, 0)
      {
        if |items[j]| <= i {
          return Err(IndexError);
        }
        var c := |items[j][i]|;
        if c > m {
          m := c;
        }
        assert items[..j + 1][..j] == items[..j];
        j := j + 1;
      }
      if |items| == 0 {
        return Err(ValueError);
      }
      assert items[..j] == items;
      sizes := sizes + [m];
      i := i + 1;
    }
    assert sizes == CellWidths(items, columns);
    return Ok(sizes);
  }

  /** The column widths the table is laid out with: raised to the titles when there are headings. */
  method Sizes(items: seq<seq<string>>, columns: seq<Column>, headings: bool) returns (r: Result<seq<nat>>)
    ensures r.Ok? <==> (|columns| == 0 || |items| > 0) && forall j :: 0 <= j < |items| ==> |items[j]| >= |columns|
    ensures r.Ok? ==> r.value == TableWidths(items, columns, headings)
    ensures r.Err? ==> r.error == (if |items| == 0 then ValueError else IndexError)
  {
    r := CellSizes(items, columns);
    if r.Ok? && headings {
      var sizes := r.value;
      r := Ok(seq(|columns|, i requires 0 <= i < |columns| => Max(sizes[i], |columns[i].title|)));
    }
  }

  /** `render_table(items, columns, headings)`. */
  method RenderTable(items: seq<seq<string>>, columns: seq<Column>, headings: bool) returns (r: Result<string>)
    ensures r == RenderSpec(items, columns, headings)
  {
    var sized := Sizes(items, columns, headings);
    if sized.Err? {
      return Err(sized.error);
    }
    var sizes := sized.value;
    var ret := "";
    if headings {
      ret := Header(columns, sizes);
    }
    var rows := AppendRows(ret, items, columns, sizes, "  ");
    if rows.Err? {
      assert !RowsMatch(items, columns);
      return Err(rows.error);
    }
    Assemble(items, columns, headings, sizes, ret, rows.value);
    return Ok(RStrip(rows.value));
  }

  /** The heading line and the rule under it. */
  method Header(columns: seq<Column>, sizes: seq<nat>) returns (head: string)
    requires |sizes| == |columns|
    ensures head == "" + Line(Titles(columns), Aligns(columns), sizes, "  ") + "\n" + Repeat('-', Sum(sizes) + 2 * |sizes|) + "\n"
  {
    var titles := AppendCells("", Titles(columns), columns, sizes, "  ");
    var rule := Repeat('-', Sum(sizes) + 2 * |sizes|);
    head := titles.value + "\n" + rule + "\n";
  }

  lemma Assemble(items: seq<seq<string>>, columns: seq<Column>, headings: bool, sizes: seq<nat>, head: string, text: string)
    requires RowsMatch(items, columns) && (|columns| == 0 || |items| > 0)
    requires sizes == TableWidths(items, columns, headings)
    requires head == if headings
      then "" + Line(Titles(columns), Aligns(columns), sizes, "  ") + "\n" + Repeat('-', Sum(sizes) + 2 * |sizes|) + "\n"
      else ""
    requires text == head + Unlines(RowLines(items, Aligns(columns), sizes, "  "))
    ensures RenderSpec(items, columns, headings) == Ok(RStrip(text))
  {
    SpecOk(items, columns, headings);
    if headings {
      AssembleHeaded(items, columns, sizes, head, text);
    } else {
      AssemblePlain(items, columns, sizes, text);
    }
  }

  lemma SpecOk(items: seq<seq<string>>, columns: seq<Column>, headings: bool)
    requires RowsMatch(items, columns) && (|columns| == 0 || |items| > 0)
    ensures RenderSpec(items, columns, headings) == Ok(RStrip(Unlines(TableLines(items, columns, headings))))
  {
  }

  lemma AssembleHeaded(items: seq<seq<string>>, columns: seq<Column>, sizes: seq<nat>, head: string, text: string)
    requires RowsMatch(items, columns)
    requires sizes == TableWidths(items, columns, true)
    requires head == "" + Line(Titles(columns), Aligns(columns), sizes, "  ") + "\n" + Repeat('-', Sum(sizes) + 2 * |sizes|) + "\n"
    requires text == head + Unlines(RowLines(items, Aligns(columns), sizes, "  "))
    ensures text == Unlines(TableLines(items, columns, true))
  {
    var header, rule := Line(Titles(columns), Aligns(columns), sizes, "  "), Repeat('-', Sum(sizes) + 2 * |sizes|);
    var rows := RowLines(items, Aligns(columns), sizes, "  ");
    HeadedText(header, rule, rows, head, text);
    HeadedLines(items, columns, sizes);
  }

  lemma HeadedLines(items: seq<seq<string>>, columns: seq<Column>, sizes: seq<nat>)
    requires RowsMatch(items, columns)
    requires sizes == TableWidths(items, columns, true)
    ensures TableLines(items, columns, true)
      == [Line(Titles(columns), Aligns(columns), sizes, "  "), Repeat('-', Sum(sizes) + 2 * |sizes|)]
         + RowLines(items, Aligns(columns), sizes, "  ")
  {
  }

  lemma HeadedText(header: string, rule: string, rows: seq<string>, head: string, text: string)
    requires head == "" + header + "\n" + rule + "\n" && text == head + Unlines(rows)
    ensures text == Unlines([header, rule] + rows)
  {
    assert "" + header == header;
    TwoLines(header, rule);
    UnlinesAppend([header, rule], rows);
  }

  lemma AssemblePlain(items: seq<seq<string>>, columns: seq<Column>, sizes: seq<nat>, text: string)
    requires RowsMatch(items, columns)
    requires sizes == TableWidths(items, columns, false)
    requires text == "" + Unlines(RowLines(items, Aligns(columns), sizes, "  "))
    ensures text == Unlines(TableLines(items, columns, false))
  {
    assert TableLines(items, columns, false) == RowLines(items, Aligns(columns), sizes, "  ");
  }

  // ---------------------------------------------------------------------
  // What the rendered table looks like.

  /** Without headings a column is exactly as wide as its widest cell. */
  lemma CellWidthIsMax(items: seq<seq<string>>, columns: seq<Column>, i: nat)
    requires RowsMatch(items, columns) && |items| > 0 && i < |columns|
    ensures var w := CellWidths(items, columns)[i];
      && (forall j :: 0 <= j < |items| ==> w >= |items[j][i]|)
      && exists j :: 0 <= j < |items| && w == |items[j][i]|
  {
    ColMaxIsMax(items, i, 0);
    var w := CellWidths(items, columns)[i];
    if w == 0 {
      assert w == |items[0][i]|;
    }
  }

  /** With headings a column is as wide as the larger of its widest cell and its title. */
  lemma TitledWidthIsMax(items: seq<seq<string>>, columns: seq<Column>, i: nat)
    requires RowsMatch(items, columns) && i < |columns|
    ensures var w := TableWidths(items, columns, true)[i];
      && w >= |columns[i].title|
      && (forall j :: 0 <= j < |items| ==> w >= |items[j][i]|)
      && (w == |columns[i].title| || exists j :: 0 <= j < |items| && w == |items[j][i]|)
  {
    ColMaxIsMax(items, i, 0);
  }

  lemma AllFit(items: seq<seq<string>>, columns: seq<Column>, headings: bool)
    requires RowsMatch(items, columns)
    ensures headings ==> Fits(Titles(columns), TableWidths(items, columns, headings))
    ensures forall j :: 0 <= j < |items| ==> Fits(items[j], TableWidths(items, columns, headings))
  {
    forall i | 0 <= i < |columns| {
      ColMaxIsMax(items, i, 0);
    }
  }

  /**
   * With headings the table starts with the header and a rule of dashes of
   * exactly the header's length, followed by one line per row.
   */
  lemma HeadedShape(items: seq<seq<string>>, columns: seq<Column>)
    requires RowsMatch(items, columns)
    ensures var w := TableWidths(items, columns, true);
      var lines := TableLines(items, columns, true);
      && |lines| == |items| + 2
      && |lines[0]| == Sum(w) + 2 * |columns|
      && lines[1] == Repeat('-', |lines[0]|)
  {
    var w := TableWidths(items, columns, true);
    AllFit(items, columns, true);
    assert w[..|columns|] == w;
    LineLength(Titles(columns), Aligns(columns), w, "  ");
  }

  /** Without headings there is one line per row and nothing else. */
  lemma PlainShape(items: seq<seq<string>>, columns: seq<Column>)
    requires RowsMatch(items, columns)
    ensures TableLines(items, columns, false)
      == RowLines(items, Aligns(columns), TableWidths(items, columns, false), "  ")
    ensures |TableLines(items, columns, false)| == |items|
  {
  }

  /** Row `j` renders as two spaces plus the width of each column. */
  lemma RowShape(items: seq<seq<string>>, columns: seq<Column>, headings: bool, j: nat)
    requires RowsMatch(items, columns) && j < |items|
    ensures var w := TableWidths(items, columns, headings);
      var line := TableLines(items, columns, headings)[j + (if headings then 2 else 0)];
      && line == Line(items[j], Aligns(columns), w, "  ")
      && |line| == Sum(w) + 2 * |columns|
  {
    var w := TableWidths(items, columns, headings);
    AllFit(items, columns, headings);
    assert w[..|columns|] == w;
    RowLinesAt(items, Aligns(columns), w, "  ", j);
    LineLength(items[j], Aligns(columns), w, "  ");
  }

  /** The rendered text is the lines with trailing whitespace, and only that, removed. */
  lemma Trimmed(items: seq<seq<string>>, columns: seq<Column>, headings: bool)
    requires RenderSpec(items, columns, headings).Ok?
    ensures var text := Unlines(TableLines(items, columns, headings));
      var out := RenderSpec(items, columns, headings).value;
      && out <= text
      && (forall k :: |out| <= k < |text| ==> IsSpace(text[k]))
      && (|out| > 0 ==> !IsSpace(out[|out| - 1]))
  {
    RStripShape(Unlines(TableLines(items, columns, headings)));
  }
}
