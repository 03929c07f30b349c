/** The tree-data cell formatter (`treeFormatter`): it renders a row of a
    tree grid as an indentation spacer, a toggle icon (expanded, collapsed or
    none, decided by whether the next row in the DataView is one level
    deeper) and the title, and tags the cell with its level class. */
module TreeFormatter {
  import opened Wrappers
  import opened Text
  import opened Records

  const MISSING_LEVEL_ERROR: string :=
    "[Angular-Slickgrid] You must provide valid \"treeDataOptions\" in your Grid Options, however it seems that we could not find any tree level info on the current item datacontext row."
  const DEFAULT_LEVEL_PROP_NAME: string := "__treeLevel"
  const DEFAULT_ID_PROP_NAME: string := "id"
  const COLLAPSED_PROP_NAME: string := "__collapsed"
  /** Indentation per level, in pixels. */
  const INDENT_PER_LEVEL: int := 15
  const LEVEL_CLASS_PREFIX: string := "slick-tree-level-"

  /** `treeDataOptions`: the level property name and an optional title
      formatter, which is handed the row's cell value and the row. */
  datatype TreeDataOptions = TreeDataOptions(levelPropName: Option<string>, titleFormatter: Option<(Value, Record) -> string>)

  /** The formatter's column: its field and id, and the optional
      `queryFieldNameGetterFn` that names the property to display for a row. */
  datatype TreeColumn = TreeColumn(id: Option<string>, field: Option<string>, queryFieldNameGetterFn: Option<Record -> string>)

  /** The DataView's rows in display order and its id property name. */
  datatype DataView = DataView(rows: seq<Record>, idPropertyName: string)

  /** The grid as the formatter sees it: its DataView (absent when the grid
      returns none) and its tree options. */
  datatype TreeGrid = TreeGrid(dataView: Option<DataView>, treeDataOptions: Option<TreeDataOptions>)

  /** `''` or `{ addClasses, text }`. */
  datatype FormatterOutput = Empty | Cell(addClasses: string, text: string)

  datatype Toggle = NoToggle | Expanded | Collapsed

  function LevelPropName(grid: TreeGrid): string {
    if grid.treeDataOptions.Some? && grid.treeDataOptions.value.levelPropName.Some?
       && grid.treeDataOptions.value.levelPropName.value != "" then
      grid.treeDataOptions.value.levelPropName.value
    else DEFAULT_LEVEL_PROP_NAME
  }

  /** The value to display: when the column has a field-name getter, the row's
      property it names (followed along the path when the name has a dot, else
      the own property, else the formatter's value); otherwise the value. */
  function DisplayValue(value: Value, column: TreeColumn, item: Record): Value {
    if column.queryFieldNameGetterFn.Some? then
      var fieldName := column.queryFieldNameGetterFn.value(item);
      if fieldName != "" && IndexOf(fieldName, '.') >= 0 then GetDescendantProperty(Obj(item), fieldName)
      else if fieldName in item then item[fieldName]
      else value
    else value
  }

  /** The position of the first row whose id property equals `id`. */
  function IndexOfId(rows: seq<Record>, idProp: string, id: Value): (r: Option<nat>)
    ensures r.Some? ==> r.value < |rows| && Get(rows[r.value], idProp) == id
    ensures r.Some? ==> forall j :: 0 <= j < r.value ==> Get(rows[j], idProp) != id
    ensures r.None? ==> forall j :: 0 <= j < |rows| ==> Get(rows[j], idProp) != id
    decreases |rows|
  {
    if |rows| == 0 then None
    else if Get(rows[0], idProp) == id then Some(0)
    else
      var rest := IndexOfId(rows[1..], idProp, id);
      if rest.Some? then
        assert forall j :: 1 <= j < rest.value + 1 ==> Get(rows[j], idProp) == Get(rows[1..][j - 1], idProp);
        Some(rest.value + 1)
      else
        assert forall j :: 1 <= j < |rows| ==> Get(rows[j], idProp) == Get(rows[1..][j - 1], idProp);
        None
  }

  /** `getItemByIdx(getIdxById(item[idProp]) + 1)`. */
  function NextRow(dv: DataView, item: Record): Option<Record> {
    var idProp := if dv.idPropertyName != "" then dv.idPropertyName else DEFAULT_ID_PROP_NAME;
    var idx := IndexOfId(dv.rows, idProp, Get(item, idProp));
    if idx.Some? && idx.value + 1 < |dv.rows| then Some(dv.rows[idx.value + 1]) else None
  }

  /** The row has a child showing: the next row's level is greater. */
  predicate NextIsDeeper(next: Option<Record>, levelProp: string, level: int) {
    next.Some? && Get(next.value, levelProp).Num? && Get(next.value, levelProp).n > level
  }

  function ToggleOf(next: Option<Record>, levelProp: string, level: int, item: Record): Toggle {
    if NextIsDeeper(next, levelProp, level) then
      if Truthy(Get(item, COLLAPSED_PROP_NAME)) then Collapsed else Expanded
    else NoToggle
  }

  function ToggleSuffix(t: Toggle): string {
    match t
    case NoToggle => ""
    case Expanded => " expanded"
    case Collapsed => " collapsed"
  }

  /** `${v}` of a non-null value; strings are HTML-encoded first. */
  function TitleText(v: Value): string {
    if v.Str? then HtmlEncode(v.s) else TemplateText(v)
  }

  /** What a title formatter receives as value: the row's property named by
      the first segment of the column's field (or its id), or `null`. */
  function TitleCellValue(column: TreeColumn, item: Record): Value {
    var fieldId := if column.field.Some? && column.field.value != "" then column.field.value
                   else if column.id.Some? then column.id.value else "";
    var prop := if IndexOf(fieldId, '.') > 0 then Split(fieldId, '.')[0] else fieldId;
    if prop in item then item[prop] else Null
  }

  function Spacer(level: int): string {
    "<span style=\"display:inline-block; width:" + IntToString(INDENT_PER_LEVEL * level) + "px;\"></span>"
  }

  function ToggleSpan(t: Toggle): string {
    "<span class=\"slick-group-toggle" + ToggleSuffix(t) + "\"></span>"
  }

  function TitleSpan(level: int, title: string): string {
    "<span class=\"slick-tree-title\" level=\"" + IntToString(level) + "\">" + title + "</span>"
  }

  /** `treeFormatter(row, cell, value, column, item, grid)`; `item` is `None`
      for `undefined`. An error is the exception the formatter throws. */
  function Format(value: Value, column: TreeColumn, item: Option<Record>, grid: TreeGrid): Result<FormatterOutput> {
    if item.None? then Ok(Empty)
    else
      var row := item.value;
      var shown := DisplayValue(value, column, row);
      var levelProp := LevelPropName(grid);
      if shown == Null || shown == Undefined then Ok(Empty)
      else if levelProp !in row || !row[levelProp].Num? then Err(MISSING_LEVEL_ERROR)
      else if grid.dataView.None? then Ok(Empty)
      else
        var level := row[levelProp].n;
        var toggle := ToggleOf(NextRow(grid.dataView.value, row), levelProp, level, row);
        var title :=
          if grid.treeDataOptions.Some? && grid.treeDataOptions.value.titleFormatter.Some? then
            grid.treeDataOptions.value.titleFormatter.value(TitleCellValue(column, row), row)
          else TitleText(shown);
        Ok(Cell(LEVEL_CLASS_PREFIX + IntToString(level), Spacer(level) + ToggleSpan(toggle) + TitleSpan(level, title)))
  }

  // ---------------------------------------------------------------------------
  // properties

  /** The formatter throws exactly when there is a row and something to show
      but the row carries no (numeric) level property. */
  lemma FormatFailsExactly(value: Value, column: TreeColumn, item: Option<Record>, grid: TreeGrid)
    ensures Format(value, column, item, grid).Err? <==>
      && item.Some?
      && DisplayValue(value, column, item.value) != Null
      && DisplayValue(value, column, item.value) != Undefined
      && !(LevelPropName(grid) in item.value && item.value[LevelPropName(grid)].Num?)
    ensures Format(value, column, item, grid).Err? ==>
      Format(value, column, item, grid).error == MISSING_LEVEL_ERROR
  {
  }

  /** The output is `''` for an undefined row, for a null or undefined value
      when no field getter is set, and whenever the grid has no DataView. */
  lemma FormatEmptyCases(value: Value, column: TreeColumn, item: Option<Record>, grid: TreeGrid)
    ensures item.None? ==> Format(value, column, item, grid) == Ok(Empty)
    ensures item.Some? && column.queryFieldNameGetterFn.None? && (value == Null || value == Undefined) ==>
      Format(value, column, item, grid) == Ok(Empty)
    ensures grid.dataView.None? && Format(value, column, item, grid).Ok? ==>
      Format(value, column, item, grid) == Ok(Empty)
  {
  }

  /** A rendered cell of level `L`: the class names the level, and the level
      can be read back from it; the text opens with the level's spacer. */
  lemma CellLayout(value: Value, column: TreeColumn, item: Record, grid: TreeGrid)
    requires Format(value, column, Some(item), grid).Ok? && Format(value, column, Some(item), grid).value.Cell?
    ensures var level := item[LevelPropName(grid)].n;
            var out := Format(value, column, Some(item), grid).value;
            && out.addClasses == LEVEL_CLASS_PREFIX + IntToString(level)
            && |out.addClasses| > |LEVEL_CLASS_PREFIX|
            && IsIntText(out.addClasses[|LEVEL_CLASS_PREFIX|..])
            && ParseInt(out.addClasses[|LEVEL_CLASS_PREFIX|..]) == level
            && Spacer(level) <= out.text
  {
    var level := item[LevelPropName(grid)].n;
    var out := Format(value, column, Some(item), grid).value;
    IntToStringRoundTrip(level);
    assert out.addClasses[|LEVEL_CLASS_PREFIX|..] == IntToString(level);
  }

  /** The spacer is `15 * L` pixels wide, and the width can be read back. */
  lemma SpacerWidth(level: int)
    ensures var w := IntToString(level * 15);
            Spacer(level) == "<span style=\"display:inline-block; width:" + w + "px;\"></span>"
            && ParseInt(w) == 15 * level
  {
    IntToStringRoundTrip(level * 15);
  }

  /** The next row is the row that follows the item's own row (found by id) in
      the DataView, or none when the item's row is the last or not there. */
  lemma NextRowFollowsItem(dv: DataView, item: Record, i: nat)
    requires dv.idPropertyName != "" && i + 1 < |dv.rows|
    requires Get(dv.rows[i], dv.idPropertyName) == Get(item, dv.idPropertyName)
    requires forall j :: 0 <= j < i ==> Get(dv.rows[j], dv.idPropertyName) != Get(item, dv.idPropertyName)
    ensures NextRow(dv, item) == Some(dv.rows[i + 1])
  {
  }

  /** A string title is HTML-encoded: it carries no markup character, and
      decoding it gives back the string. */
  lemma TitleEncoded(s: string)
    ensures forall i :: 0 <= i < |TitleText(Str(s))| ==> TitleText(Str(s))[i] != '<' && TitleText(Str(s))[i] != '>'
    ensures HtmlDecode(TitleText(Str(s))) == s
  {
    HtmlEncodeRoundTrip(s);
  }

  /** Without a title formatter, a rendered cell ends with a title span whose
      text gives the shown value back: a string decodes to itself and carries
      no markup character, a number parses back to itself. */
  lemma CellTitleReadsBackShownValue(value: Value, column: TreeColumn, item: Record, grid: TreeGrid)
    requires grid.dataView.Some?
    requires grid.treeDataOptions.None? || grid.treeDataOptions.value.titleFormatter.None?
    requires LevelPropName(grid) in item && item[LevelPropName(grid)].Num?
    requires DisplayValue(value, column, item) != Null && DisplayValue(value, column, item) != Undefined
    ensures var level := item[LevelPropName(grid)].n;
            var shown := DisplayValue(value, column, item);
            var out := Format(value, column, Some(item), grid);
            var t := TitleText(shown);
            && out.Ok? && out.value.Cell?
            && |out.value.text| >= |TitleSpan(level, t)|
            && out.value.text[|out.value.text| - |TitleSpan(level, t)|..] == TitleSpan(level, t)
            && (shown.Str? ==> HtmlDecode(t) == shown.s && '<' !in t && '>' !in t)
            && (shown.Num? ==> ParseInt(t) == shown.n)
  {
    var shown := DisplayValue(value, column, item);
    TitleIsLastSpan(value, column, item, grid);
    if shown.Str? {
      TitleEncoded(shown.s);
    } else if shown.Num? {
      IntToStringRoundTrip(shown.n);
    }
  }

  /** With a title formatter, its output is placed in the title span unchanged. */
  lemma CellTitleFromTitleFormatter(value: Value, column: TreeColumn, item: Record, grid: TreeGrid,
                                    f: (Value, Record) -> string)
    requires grid.dataView.Some? && grid.treeDataOptions.Some? && grid.treeDataOptions.value.titleFormatter == Some(f)
    requires LevelPropName(grid) in item && item[LevelPropName(grid)].Num?
    requires DisplayValue(value, column, item) != Null && DisplayValue(value, column, item) != Undefined
    ensures var level := item[LevelPropName(grid)].n;
            var out := Format(value, column, Some(item), grid);
            out.Ok? && out.value.Cell?
            && exists t: Toggle :: out.value.text == Spacer(level) + ToggleSpan(t) + TitleSpan(level, f(TitleCellValue(column, item), item))
  {
  }

  /** Two toggle spans behind the same text can only both open a cell's text when
      they are the same toggle: the class attribute ends differently for each. */
  lemma ToggleSpanPrefixUnique(head: string, t1: Toggle, t2: Toggle, rest: string)
    requires head + ToggleSpan(t1) <= head + ToggleSpan(t2) + rest
    ensures t1 == t2
  {
    var a := ToggleSpan(t1);
    var b := ToggleSpan(t2) + rest;
    assert head + ToggleSpan(t2) + rest == head + b;
    ToggleSpanChars(t1);
    ToggleSpanChars(t2);
    PrefixAt(head + a, head + b, |head| + 31);
    PrefixAt(head + a, head + b, |head| + 32);
    assert a[31] == b[31] && a[32] == b[32];
  }

  /** The two characters after `slick-group-toggle` tell the toggles apart. */
  lemma ToggleSpanChars(t: Toggle)
    ensures |ToggleSpan(t)| > 32
    ensures ToggleSpan(t)[31] == if t == NoToggle then '"' else ' '
    ensures ToggleSpan(t)[32] == match t case NoToggle => '>' case Expanded => 'e' case Collapsed => 'c'
  {
    var open := "<span class=\"slick-group-toggle";
    assert |open| == 31;
    assert ToggleSpan(t) == open + (ToggleSuffix(t) + "\"></span>");
  }

  lemma PrefixAt(a: string, b: string, k: nat)
    requires a <= b && k < |a|
    ensures a[k] == b[k]
  {
  }

  /** The toggle a rendered cell shows is decided by the row right after the
      item's own row in the DataView: a deeper next row gives `expanded`, or
      `collapsed` when the item is collapsed; a last row or a next row that is
      not deeper gives no icon. Each icon appears exactly in its case. */
  lemma RenderedToggleFollowsNextRow(value: Value, column: TreeColumn, item: Record, grid: TreeGrid,
                                     dv: DataView, i: nat)
    requires grid.dataView == Some(dv)
    requires dv.idPropertyName != "" && i < |dv.rows|
    requires Get(dv.rows[i], dv.idPropertyName) == Get(item, dv.idPropertyName)
    requires forall j :: 0 <= j < i ==> Get(dv.rows[j], dv.idPropertyName) != Get(item, dv.idPropertyName)
    requires LevelPropName(grid) in item && item[LevelPropName(grid)].Num?
    requires DisplayValue(value, column, item) != Null && DisplayValue(value, column, item) != Undefined
    ensures var out := Format(value, column, Some(item), grid);
            out.Ok? && out.value.Cell?
    ensures var level := item[LevelPropName(grid)].n;
            var text := Format(value, column, Some(item), grid).value.text;
            var deeper := i + 1 < |dv.rows| && Get(dv.rows[i + 1], LevelPropName(grid)).Num?
                          && Get(dv.rows[i + 1], LevelPropName(grid)).n > level;
            var collapsed := Truthy(Get(item, COLLAPSED_PROP_NAME));
            && (Spacer(level) + ToggleSpan(Expanded) <= text <==> deeper && !collapsed)
            && (Spacer(level) + ToggleSpan(Collapsed) <= text <==> deeper && collapsed)
            && (Spacer(level) + ToggleSpan(NoToggle) <= text <==> !deeper)
  {
    var lp := LevelPropName(grid);
    var level := item[lp].n;
    var idx := IndexOfId(dv.rows, dv.idPropertyName, Get(item, dv.idPropertyName));
    assert idx == Some(i);
    var next := NextRow(dv, item);
    assert next == if i + 1 < |dv.rows| then Some(dv.rows[i + 1]) else None;
    var t := ToggleOf(next, lp, level, item);
    var title :=
      if grid.treeDataOptions.Some? && grid.treeDataOptions.value.titleFormatter.Some? then
        grid.treeDataOptions.value.titleFormatter.value(TitleCellValue(column, item), item)
      else TitleText(DisplayValue(value, column, item));
    var rest := TitleSpan(level, title);
    var text := Format(value, column, Some(item), grid).value.text;
    assert text == Spacer(level) + ToggleSpan(t) + rest;
    assert Spacer(level) + ToggleSpan(t) <= text;
    forall t' | Spacer(level) + ToggleSpan(t') <= text
      ensures t' == t
    {
      ToggleSpanPrefixUnique(Spacer(level), t', t, rest);
    }
  }

  /** With a field-name getter naming a dotted path, a rendered cell's title
      is the value found along that path in the row. */
  lemma DottedGetterTitle(value: Value, column: TreeColumn, item: Record, grid: TreeGrid, g: Record -> string)
    requires column.queryFieldNameGetterFn == Some(g) && '.' in g(item)
    requires grid.dataView.Some? && (grid.treeDataOptions.None? || grid.treeDataOptions.value.titleFormatter.None?)
    requires LevelPropName(grid) in item && item[LevelPropName(grid)].Num?
    requires GetDescendantProperty(Obj(item), g(item)) != Null && GetDescendantProperty(Obj(item), g(item)) != Undefined
    ensures var level := item[LevelPropName(grid)].n;
            var out := Format(value, column, Some(item), grid);
            var title := TitleSpan(level, TitleText(GetDescendantProperty(Obj(item), g(item))));
            && out.Ok? && out.value.Cell?
            && |out.value.text| >= |title| && out.value.text[|out.value.text| - |title|..] == title
  {
    assert IndexOf(g(item), '.') >= 0;
    TitleIsLastSpan(value, column, item, grid);
  }

  /** With a field-name getter naming an own property of the row, a rendered
      cell's title is that property's value. */
  lemma PlainGetterTitle(value: Value, column: TreeColumn, item: Record, grid: TreeGrid, g: Record -> string)
    requires column.queryFieldNameGetterFn == Some(g) && '.' !in g(item) && g(item) in item
    requires grid.dataView.Some? && (grid.treeDataOptions.None? || grid.treeDataOptions.value.titleFormatter.None?)
    requires LevelPropName(grid) in item && item[LevelPropName(grid)].Num?
    requires item[g(item)] != Null && item[g(item)] != Undefined
    ensures var level := item[LevelPropName(grid)].n;
            var out := Format(value, column, Some(item), grid);
            var title := TitleSpan(level, TitleText(item[g(item)]));
            && out.Ok? && out.value.Cell?
            && |out.value.text| >= |title| && out.value.text[|out.value.text| - |title|..] == title
  {
    assert IndexOf(g(item), '.') == -1;
    TitleIsLastSpan(value, column, item, grid);
  }

  /** Without a title formatter, a rendered cell ends with the title span of the shown value. */
  lemma TitleIsLastSpan(value: Value, column: TreeColumn, item: Record, grid: TreeGrid)
    requires grid.dataView.Some? && (grid.treeDataOptions.None? || grid.treeDataOptions.value.titleFormatter.None?)
    requires LevelPropName(grid) in item && item[LevelPropName(grid)].Num?
    requires DisplayValue(value, column, item) != Null && DisplayValue(value, column, item) != Undefined
    ensures var level := item[LevelPropName(grid)].n;
            var out := Format(value, column, Some(item), grid);
            var title := TitleSpan(level, TitleText(DisplayValue(value, column, item)));
            && out.Ok? && out.value.Cell?
            && |out.value.text| >= |title| && out.value.text[|out.value.text| - |title|..] == title
  {
    var level := item[LevelPropName(grid)].n;
    var out := Format(value, column, Some(item), grid);
    var title := TitleSpan(level, TitleText(DisplayValue(value, column, item)));
    var head := Spacer(level) + ToggleSpan(ToggleOf(NextRow(grid.dataView.value, item), LevelPropName(grid), level, item));
    assert out.value.text == head + title;
    assert (head + title)[|head|..] == title;
  }
}
