/** The checkbox-selector extension (`CheckboxSelectorExtension`): it creates the
    `Slick.CheckboxSelectColumn` plugin before the grid exists, injects the
    plugin's selection column into the column definitions, registers the plugin
    and a row-selection model once the grid is built, and releases both on
    dispose.

    The extension's two private fields (`_addon`, `_rowSelectionPlugin`) are a
    value `Extension` threaded through every call; plugin objects carry an
    instance number that stands for their object identity, drawn from
    `nextInstance` whenever the extension constructs one. */
module CheckboxSelector {
  import opened Wrappers

  /** Fallback for the selection column's `maxWidth` when its `width` is unset or 0. */
  const DEFAULT_MAX_WIDTH: int := 30

  datatype Column = Column(
    id: string,
    field: string,
    width: Option<int>,
    maxWidth: Option<int>,
    excludeFromExport: bool,
    excludeFromColumnPicker: bool,
    excludeFromGridMenu: bool,
    excludeFromQuery: bool,
    excludeFromHeaderMenu: bool)

  datatype CheckboxSelectorOptions = CheckboxSelectorOptions(columnIndexPosition: Option<int>)

  datatype RowSelectionOptions = RowSelectionOptions(selectActiveRow: Option<bool>)

  /** The grid options this extension reads. */
  datatype GridOptions = GridOptions(
    checkboxSelector: Option<CheckboxSelectorOptions>,
    rowSelectionOptions: Option<RowSelectionOptions>,
    preselectedRows: Option<seq<int>>)

  /** A `Slick.CheckboxSelectColumn` instance and the options it was built from. */
  datatype Addon = Addon(instance: nat, options: CheckboxSelectorOptions)

  /** A `Slick.RowSelectionModel` instance. */
  datatype SelectionModel = RowSelectionModel(instance: nat, options: RowSelectionOptions)

  /** The live grid as far as this extension uses it: the plugins registered on
      it, in order, and its current selection model. */
  datatype Grid = Grid(plugins: seq<Option<Addon>>, selectionModel: Option<SelectionModel>)

  /** The shared service: the grid and grid options, both absent before the grid is created. */
  datatype Shared = Shared(grid: Option<Grid>, gridOptions: Option<GridOptions>)

  /** A `destroy()` call the extension made. */
  datatype Destroyed = AddonDestroyed(addon: Addon) | PluginDestroyed(plugin: SelectionModel)

  datatype Extension = Extension(
    addon: Option<Addon>,
    rowSelectionPlugin: Option<SelectionModel>,
    nextInstance: nat,
    destroyed: seq<Destroyed>)

  /** A freshly constructed extension. */
  function Initial(): Extension {
    Extension(None, None, 0, [])
  }

  // ---------------------------------------------------------------------------
  // create

  /** The selection column after the five exclusion flags and `maxWidth` are stamped on it. */
  function StampSelectionColumn(c: Column): (r: Column)
    ensures r.excludeFromExport && r.excludeFromColumnPicker && r.excludeFromGridMenu
    ensures r.excludeFromQuery && r.excludeFromHeaderMenu
    ensures r.maxWidth.Some?
    ensures c.width.Some? && c.width.value != 0 ==> r.maxWidth.value == c.width.value
    ensures (c.width.None? || c.width.value == 0) ==> r.maxWidth.value == DEFAULT_MAX_WIDTH
    ensures r.id == c.id && r.field == c.field && r.width == c.width
  {
    var w := if c.width.Some? && c.width.value != 0 then c.width.value else DEFAULT_MAX_WIDTH;
    c.(excludeFromExport := true, excludeFromColumnPicker := true, excludeFromGridMenu := true,
       excludeFromQuery := true, excludeFromHeaderMenu := true, maxWidth := Some(w))
  }

  /** `checkboxSelector.columnIndexPosition || 0`. */
  function ColumnPosition(options: GridOptions): int {
    if options.checkboxSelector.Some? && options.checkboxSelector.value.columnIndexPosition.Some? then
      options.checkboxSelector.value.columnIndexPosition.value
    else 0
  }

  /** Where the column lands: `splice(pos, 0, c)` for a positive position (which
      clamps to the end of the list), `unshift(c)` otherwise. */
  function InsertionIndex(pos: int, n: nat): (k: nat)
    ensures k <= n
    ensures 0 < pos <= n ==> k == pos
    ensures pos <= 0 ==> k == 0
    ensures pos > n ==> k == n
  {
    if pos > 0 then (if pos <= n then pos else n) else 0
  }

  function InsertSelectionColumn(cols: seq<Column>, pos: int, c: Column): (r: seq<Column>)
    ensures |r| == |cols| + 1
    ensures r[InsertionIndex(pos, |cols|)] == c
    ensures r[..InsertionIndex(pos, |cols|)] == cols[..InsertionIndex(pos, |cols|)]
    ensures r[InsertionIndex(pos, |cols|) + 1..] == cols[InsertionIndex(pos, |cols|)..]
  {
    var k := InsertionIndex(pos, |cols|);
    var r := cols[..k] + [c] + cols[k..];
    assert r[..k] == cols[..k];
    assert r[k + 1..] == cols[k..];
    r
  }

  function RemoveAt<T>(s: seq<T>, k: nat): seq<T>
    requires k < |s|
  {
    s[..k] + s[k + 1..]
  }

  /** Taking the inserted column out again gives back the caller's list. */
  lemma InsertThenRemove(cols: seq<Column>, pos: int, c: Column)
    ensures RemoveAt(InsertSelectionColumn(cols, pos, c), InsertionIndex(pos, |cols|)) == cols
  {
    var k := InsertionIndex(pos, |cols|);
    var r := InsertSelectionColumn(cols, pos, c);
    assert r[..k] + r[k + 1..] == cols[..k] + cols[k..];
    assert cols[..k] + cols[k..] == cols;
  }

  /** Result of `create`: the extension afterwards, the column definitions
      afterwards (`None` when the argument was not an array) and the value
      returned (`None` for `null`). */
  datatype CreateResult = CreateResult(ext: Extension, columns: Option<seq<Column>>, returned: Option<Addon>)

  /** `create(columnDefinitions, gridOptions)`. `pluginColumn` is what the
      plugin's `getColumnDefinition()` hands back (`None` when that is not an
      object). */
  function Create(e: Extension, columns: Option<seq<Column>>, options: Option<GridOptions>,
                  pluginColumn: Option<Column>): (r: CreateResult)
    // without an array of columns and grid options nothing happens and null is returned
    ensures !(columns.Some? && options.Some?) ==> r == CreateResult(e, columns, None)
    ensures columns.Some? && options.Some? ==>
      && r.returned.Some? && r.ext.addon == r.returned
      // the plugin is constructed only when none exists yet
      && (e.addon.Some? ==> r.ext.addon == e.addon && r.ext.nextInstance == e.nextInstance)
      && (e.addon.None? ==>
            r.ext.addon == Some(Addon(e.nextInstance, options.value.checkboxSelector.GetOr(CheckboxSelectorOptions(None))))
            && r.ext.nextInstance == e.nextInstance + 1)
      && r.ext.rowSelectionPlugin == e.rowSelectionPlugin && r.ext.destroyed == e.destroyed
      && r.columns.Some?
      && (pluginColumn.None? ==> r.columns == columns)
      && (pluginColumn.Some? ==>
            var k := InsertionIndex(ColumnPosition(options.value), |columns.value|);
            && |r.columns.value| == |columns.value| + 1
            && r.columns.value[k] == StampSelectionColumn(pluginColumn.value)
            && RemoveAt(r.columns.value, k) == columns.value)
  {
    if columns.Some? && options.Some? then
      var e1 :=
        if e.addon.None? then
          e.(addon := Some(Addon(e.nextInstance, options.value.checkboxSelector.GetOr(CheckboxSelectorOptions(None)))),
             nextInstance := e.nextInstance + 1)
        else e;
      var cols :=
        if pluginColumn.Some? then
          InsertThenRemove(columns.value, ColumnPosition(options.value), StampSelectionColumn(pluginColumn.value));
          InsertSelectionColumn(columns.value, ColumnPosition(options.value), StampSelectionColumn(pluginColumn.value))
        else columns.value;
      CreateResult(e1, Some(cols), e1.addon)
    else
      CreateResult(e, columns, None)
  }

  /** `getAddonInstance()`. */
  function GetAddonInstance(e: Extension): Option<Addon> {
    e.addon
  }

  /** A second `create` reuses the plugin built by the first one, and
      `getAddonInstance` returns it. */
  lemma CreateReusesAddon(e: Extension, cols1: seq<Column>, cols2: seq<Column>, options1: GridOptions,
                          options2: GridOptions, c1: Option<Column>, c2: Option<Column>)
    ensures var first := Create(e, Some(cols1), Some(options1), c1);
            var second := Create(first.ext, Some(cols2), Some(options2), c2);
            && second.returned == first.returned
            && GetAddonInstance(second.ext) == first.returned
            && second.ext.nextInstance == first.ext.nextInstance
            && first.ext.nextInstance <= e.nextInstance + 1
  {
  }

  /** The selection column injected by `create` is excluded from export, the
      column picker, the grid menu, queries and the header menu, and has its
      `maxWidth` set. */
  lemma CreateStampsSelectionColumn(e: Extension, cols: seq<Column>, options: GridOptions, c: Column)
    ensures var r := Create(e, Some(cols), Some(options), Some(c));
            var k := InsertionIndex(ColumnPosition(options), |cols|);
            var s := r.columns.value[k];
            && s.excludeFromExport && s.excludeFromColumnPicker && s.excludeFromGridMenu
            && s.excludeFromQuery && s.excludeFromHeaderMenu
            && s.maxWidth == Some(if c.width.Some? && c.width.value != 0 then c.width.value else 30)
            && (forall j :: 0 <= j < |cols| ==> cols[j] in r.columns.value)
  {
    var r := Create(e, Some(cols), Some(options), Some(c));
    var k := InsertionIndex(ColumnPosition(options), |cols|);
    var out := r.columns.value;
    forall j | 0 <= j < |cols|
      ensures cols[j] in out
    {
      if j < k {
        assert out[..k][j] == cols[j];
      } else {
        assert out[k + 1..][j - k] == cols[j];
      }
    }
  }

  // ---------------------------------------------------------------------------
  // register

  /** Result of `register`: the extension, the shared service afterwards, the
      value returned (`None` for `null`), and whether the deferred row
      preselection was scheduled. */
  datatype RegisterResult = RegisterResult(ext: Extension, shared: Shared, returned: Option<SelectionModel>,
                                           preselectScheduled: bool)

  /** `register(rowSelectionPlugin?)`. */
  function Register(e: Extension, shared: Shared, rowSelectionPlugin: Option<SelectionModel>): (r: RegisterResult)
    // without a grid and grid options nothing changes and null is returned
    ensures !(shared.grid.Some? && shared.gridOptions.Some?) ==> r == RegisterResult(e, shared, None, false)
    ensures shared.grid.Some? && shared.gridOptions.Some? ==>
      var grid := shared.grid.value;
      var installs := rowSelectionPlugin.None? || grid.selectionModel.None?;
      && r.returned.Some?
      && r.ext.rowSelectionPlugin == r.returned
      && r.shared.gridOptions == shared.gridOptions
      && r.shared.grid.Some?
      // the addon is registered on the grid, after the plugins already there
      && r.shared.grid.value.plugins == grid.plugins + [e.addon]
      // a new model is installed only when no plugin was passed or the grid has none
      && (installs ==>
            && r.returned.value.instance == e.nextInstance
            && r.returned.value.options == shared.gridOptions.value.rowSelectionOptions.GetOr(RowSelectionOptions(None))
            && r.ext.nextInstance == e.nextInstance + 1
            && r.shared.grid.value.selectionModel == r.returned)
      && (!installs ==>
            && r.returned == rowSelectionPlugin
            && r.ext.nextInstance == e.nextInstance
            && r.shared.grid.value.selectionModel == grid.selectionModel)
      && r.ext.addon == e.addon && r.ext.destroyed == e.destroyed
      && (r.preselectScheduled <==> shared.gridOptions.value.preselectedRows.Some?)
  {
    if shared.grid.Some? && shared.gridOptions.Some? then
      var options := shared.gridOptions.value;
      var grid := shared.grid.value.(plugins := shared.grid.value.plugins + [e.addon]);
      var installs := rowSelectionPlugin.None? || grid.selectionModel.None?;
      var plugin :=
        if installs then RowSelectionModel(e.nextInstance, options.rowSelectionOptions.GetOr(RowSelectionOptions(None)))
        else rowSelectionPlugin.value;
      var grid' := if installs then grid.(selectionModel := Some(plugin)) else grid;
      var next := if installs then e.nextInstance + 1 else e.nextInstance;
      var preselect := options.preselectedRows.Some? && grid'.selectionModel.Some?;
      RegisterResult(e.(rowSelectionPlugin := Some(plugin), nextInstance := next),
                     shared.(grid := Some(grid')), Some(plugin), preselect)
    else
      RegisterResult(e, shared, None, false)
  }

  /** Registering never replaces a selection model the grid already has. */
  lemma RegisterKeepsExistingModel(e: Extension, shared: Shared, plugin: SelectionModel)
    requires shared.grid.Some? && shared.gridOptions.Some? && shared.grid.value.selectionModel.Some?
    ensures Register(e, shared, Some(plugin)).shared.grid.value.selectionModel == shared.grid.value.selectionModel
    ensures Register(e, shared, Some(plugin)).returned == Some(plugin)
  {
  }

  /** After registering, the grid always has a selection model. */
  lemma RegisterLeavesSelectionModel(e: Extension, shared: Shared, plugin: Option<SelectionModel>)
    requires shared.grid.Some? && shared.gridOptions.Some?
    ensures Register(e, shared, plugin).shared.grid.value.selectionModel.Some?
  {
  }

  // ---------------------------------------------------------------------------
  // dispose

  /** `dispose()`: destroys the addon and the row-selection plugin that exist,
      and forgets the addon. The row-selection plugin reference is kept. */
  function Dispose(e: Extension): (r: Extension)
    ensures r.addon.None?
    ensures r.rowSelectionPlugin == e.rowSelectionPlugin && r.nextInstance == e.nextInstance
    ensures r.destroyed ==
      e.destroyed
      + (if e.addon.Some? then [AddonDestroyed(e.addon.value)] else [])
      + (if e.rowSelectionPlugin.Some? then [PluginDestroyed(e.rowSelectionPlugin.value)] else [])
  {
    var afterAddon := e.destroyed + (if e.addon.Some? then [AddonDestroyed(e.addon.value)] else []);
    var afterPlugin := afterAddon + (if e.rowSelectionPlugin.Some? then [PluginDestroyed(e.rowSelectionPlugin.value)] else []);
    e.(addon := None, destroyed := afterPlugin)
  }

  function CountAddonDestroyed(log: seq<Destroyed>): nat
    decreases |log|
  {
    if |log| == 0 then 0
    else CountAddonDestroyed(log[..|log| - 1]) + (if log[|log| - 1].AddonDestroyed? then 1 else 0)
  }

  lemma {:induction false} CountAddonDestroyedAppend(a: seq<Destroyed>, b: seq<Destroyed>)
    ensures CountAddonDestroyed(a + b) == CountAddonDestroyed(a) + CountAddonDestroyed(b)
    decreases |b|
  {
    if |b| == 0 {
      assert a + b == a;
    } else {
      var b' := b[..|b| - 1];
      assert (a + b)[..|a + b| - 1] == a + b';
      CountAddonDestroyedAppend(a, b');
    }
  }

  /** Disposing twice is harmless: the addon is destroyed at most once over both
      calls (only the row-selection plugin, whose reference is kept, is
      destroyed again). */
  lemma DisposeTwice(e: Extension)
    ensures Dispose(Dispose(e)).addon.None?
    ensures CountAddonDestroyed(Dispose(Dispose(e)).destroyed) <= CountAddonDestroyed(e.destroyed) + 1
    ensures Dispose(Dispose(e)).destroyed ==
      Dispose(e).destroyed + (if e.rowSelectionPlugin.Some? then [PluginDestroyed(e.rowSelectionPlugin.value)] else [])
  {
    var once := Dispose(e);
    var addonPart := if e.addon.Some? then [AddonDestroyed(e.addon.value)] else [];
    var pluginPart := if e.rowSelectionPlugin.Some? then [PluginDestroyed(e.rowSelectionPlugin.value)] else [];
    CountAddonDestroyedAppend(e.destroyed, addonPart);
    CountAddonDestroyedAppend(e.destroyed + addonPart, pluginPart);
    CountAddonDestroyedAppend(once.destroyed, pluginPart);
    assert once.destroyed == (e.destroyed + addonPart) + pluginPart;
    assert Dispose(once).destroyed == once.destroyed + pluginPart;
    assert CountAddonDestroyed(pluginPart) == 0 by {
      if e.rowSelectionPlugin.Some? {
        assert pluginPart[..0] == [];
      }
    }
    assert CountAddonDestroyed(addonPart) <= 1 by {
      if e.addon.Some? {
        assert addonPart[..0] == [];
      }
    }
  }
}
