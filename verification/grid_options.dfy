/** Option-resolution rules of the grid component (`AngularSlickgridComponent`):
    the decisions it takes from the grid options while it builds the grid, the
    DataView and their services. Each rule is a total function of the options
    (and of the values it reads from collaborators, passed in as parameters);
    the services themselves are not modelled, only which of their entry points
    are called and with what. */
module GridOptionRules {
  import opened Wrappers

  const RESIZE_CONFLICT_ERROR: string :=
    "[Angular-Slickgrid] You cannot enable both autosize/fit viewport & resize by content, you must choose which resize technique to use."
  const COLUMN_ID_DOT_ERROR: string :=
    "[Angular-Slickgrid] Make sure that none of your Column Definition \"id\" property includes a dot in its name because that will cause some problems with the Editors. For example if your column definition \"field\" property is \"user.firstName\" then use \"firstName\" as the column \"id\"."
  const CHECKBOX_SELECTOR_COLUMN_ID: string := "_checkbox_selector"

  /** Global defaults of the options these rules read. */
  const DEFAULT_AUTO_FIT_COLUMNS_ON_FIRST_LOAD: bool := true
  const DEFAULT_AUTOSIZE_BY_CONTENT_ON_FIRST_LOAD: bool := false
  const DEFAULT_ENABLE_AUTO_SIZE_COLUMNS: bool := true
  const DEFAULT_ENABLE_AUTO_RESIZE_BY_CONTENT: bool := false
  const DEFAULT_MULTI_COLUMN_SORT: bool := true

  /** `dataView.syncGridSelection`: a flag or the two preserve options. */
  datatype SyncGridSelection =
    | SyncFlag(enabled: bool)
    | SyncPreserve(preserveHidden: bool, preserveHiddenOnSelectionChange: bool)

  datatype DataViewOption = DataViewOption(
    syncGridSelection: Option<SyncGridSelection>,
    syncGridSelectionWithBackendService: Option<bool>,
    inlineFilters: bool)

  datatype BackendServiceApi = BackendServiceApi(useLocalFiltering: bool, useLocalSorting: bool)

  datatype Pagination = Pagination(
    pageNumber: Option<int>,
    pageSize: Option<int>,
    pageSizes: Option<seq<int>>,
    totalItems: Option<int>)

  datatype PaginationPreset = PaginationPreset(pageNumber: int, pageSize: int)
  datatype Sorter = Sorter(columnId: string, direction: string)
  datatype Filter = Filter(columnId: string, operator: string, searchTerms: seq<string>)
  datatype Pinning = Pinning(frozenBottom: Option<bool>, frozenColumn: Option<int>, frozenRow: Option<int>)
  datatype RowSelectionPreset = RowSelectionPreset(gridRowIndexes: Option<seq<int>>, dataContextIds: Option<seq<int>>)

  /** `presets`: the grid state to restore on load. */
  datatype Presets = Presets(
    filters: Option<seq<Filter>>,
    sorters: Option<seq<Sorter>>,
    pagination: Option<PaginationPreset>,
    pinning: Option<Pinning>,
    rowSelection: Option<RowSelectionPreset>,
    columns: Option<seq<string>>)

  /** The user's `customFooterOptions`; every entry is optional. */
  datatype CustomFooterOption = CustomFooterOption(
    dateFormat: Option<string>,
    hideRowSelectionCount: Option<bool>,
    hideLastUpdateTimestamp: Option<bool>,
    hideTotalItemCount: Option<bool>,
    footerHeight: Option<int>,
    leftContainerClass: Option<string>,
    metricSeparator: Option<string>,
    rightContainerClass: Option<string>,
    metricTexts: map<string, string>)

  /** The grid options these rules read; an unset boolean reads as false
      unless it has a global default, which the `Option` fields carry. */
  datatype GridOptions = GridOptions(
    autoFitColumnsOnFirstLoad: Option<bool>,
    autosizeColumnsByCellContentOnFirstLoad: Option<bool>,
    enableAutoSizeColumns: Option<bool>,
    enableAutoResizeColumnsByCellContent: Option<bool>,
    backendServiceApi: Option<BackendServiceApi>,
    dataView: Option<DataViewOption>,
    enableFiltering: bool,
    enableSorting: bool,
    enablePagination: bool,
    enableRowSelection: bool,
    enableCheckboxSelector: bool,
    multiColumnSort: Option<bool>,
    createPreHeaderPanel: bool,
    enableDraggableGrouping: bool,
    draggableGrouping: bool,
    enableGrouping: bool,
    enableTranslate: bool,
    enableExport: bool,
    enableExcelExport: bool,
    enableTreeData: bool,
    treeDataInitialSort: bool,
    frozenColumn: Option<int>,
    frozenRow: Option<int>,
    frozenBottom: Option<bool>,
    enableMouseWheelScrollHandler: Option<bool>,
    pagination: Option<Pagination>,
    presets: Option<Presets>,
    showCustomFooter: bool,
    customFooterOptions: Option<CustomFooterOption>)

  /** A grid without a backend service is a local grid. */
  predicate IsLocalGrid(o: GridOptions) {
    o.backendServiceApi.None?
  }

  // ---------------------------------------------------------------------------
  // construction: resize conflict and the services initialised

  /** Both an autosize/fit-viewport strategy and its by-content counterpart are on. */
  predicate ResizeStrategiesClash(o: GridOptions) {
    (o.autoFitColumnsOnFirstLoad.GetOr(DEFAULT_AUTO_FIT_COLUMNS_ON_FIRST_LOAD)
     && o.autosizeColumnsByCellContentOnFirstLoad.GetOr(DEFAULT_AUTOSIZE_BY_CONTENT_ON_FIRST_LOAD))
    || (o.enableAutoSizeColumns.GetOr(DEFAULT_ENABLE_AUTO_SIZE_COLUMNS)
        && o.enableAutoResizeColumnsByCellContent.GetOr(DEFAULT_ENABLE_AUTO_RESIZE_BY_CONTENT))
  }

  datatype Binding = NotBound | BindLocal | BindBackend

  /** What the component sets up from the options once the grid exists. */
  datatype InitPlan = InitPlan(
    groupingAndColspanInit: bool,
    exportInit: bool,
    excelExportInit: bool,
    dataViewInlineFilters: bool,
    groupItemMetadataProvider: bool,
    filterBinding: Binding,
    sortBinding: Binding,
    populateFilterPresets: Option<seq<Filter>>,
    enableMouseWheelScrollHandler: Option<bool>)

  function FilterBinding(o: GridOptions): Binding {
    if !o.enableFiltering then NotBound
    else if o.backendServiceApi.Some? && !o.backendServiceApi.value.useLocalFiltering then BindBackend
    else BindLocal
  }

  function SortBinding(o: GridOptions): Binding {
    if !o.enableSorting then NotBound
    else if o.backendServiceApi.Some? && !o.backendServiceApi.value.useLocalSorting then BindBackend
    else BindLocal
  }

  /** Filter presets are pushed into the filter service when filtering is on and some exist. */
  function FilterPresetsToPopulate(o: GridOptions): Option<seq<Filter>> {
    if o.enableFiltering && o.presets.Some? && o.presets.value.filters.Some? && |o.presets.value.filters.value| > 0 then
      o.presets.value.filters
    else None
  }

  /** A column index to pin is set. */
  predicate HasFrozenColumn(o: GridOptions) {
    o.frozenColumn.Some? && o.frozenColumn.value >= 0
  }

  /** The grid is frozen (pinned) when a row or a column index to pin is set. */
  predicate IsFrozenGrid(o: GridOptions) {
    HasFrozenColumn(o) || (o.frozenRow.Some? && o.frozenRow.value >= 0)
  }

  /** A frozen grid turns the mousewheel scroll handler on unless the user set it. */
  function MouseWheelScrollHandler(o: GridOptions): Option<bool> {
    if IsFrozenGrid(o) && o.enableMouseWheelScrollHandler.None? then Some(true) else o.enableMouseWheelScrollHandler
  }

  /** Grid construction: it throws when the resize strategies clash, otherwise
      it sets up the services the options ask for. */
  function Initialize(o: GridOptions): (r: Result<InitPlan>)
    ensures r.Err? <==> ResizeStrategiesClash(o)
    ensures r.Err? ==> r.error == RESIZE_CONFLICT_ERROR
  {
    if ResizeStrategiesClash(o) then Err(RESIZE_CONFLICT_ERROR)
    else
      Ok(InitPlan(
        groupingAndColspanInit := o.createPreHeaderPanel && !o.enableDraggableGrouping,
        exportInit := o.enableExport,
        excelExportInit := o.enableExcelExport,
        dataViewInlineFilters := o.dataView.Some? && o.dataView.value.inlineFilters,
        groupItemMetadataProvider := o.draggableGrouping || o.enableGrouping,
        filterBinding := FilterBinding(o),
        sortBinding := SortBinding(o),
        populateFilterPresets := FilterPresetsToPopulate(o),
        enableMouseWheelScrollHandler := MouseWheelScrollHandler(o)))
  }

  /** With every resize option left at its default, construction succeeds. */
  lemma DefaultResizeOptionsDoNotClash(o: GridOptions)
    requires o.autoFitColumnsOnFirstLoad.None? && o.autosizeColumnsByCellContentOnFirstLoad.None?
    requires o.enableAutoSizeColumns.None? && o.enableAutoResizeColumnsByCellContent.None?
    ensures Initialize(o).Ok?
  {
  }

  /** Because fit-viewport and autosize are on by default, turning on a
      by-content strategy alone is already a clash: its counterpart must be
      switched off explicitly. */
  lemma ByContentNeedsOptOut(o: GridOptions)
    requires (o.autosizeColumnsByCellContentOnFirstLoad == Some(true) && o.autoFitColumnsOnFirstLoad != Some(false))
             || (o.enableAutoResizeColumnsByCellContent == Some(true) && o.enableAutoSizeColumns != Some(false))
    ensures Initialize(o) == Err("[Angular-Slickgrid] You cannot enable both autosize/fit viewport & resize by content, you must choose which resize technique to use.")
  {
  }

  /** Every grid that records a frozen column id, and every grid that pins
      rows, also scrolls its frozen containers with the mousewheel, unless the
      user set the handler; a set value is never overridden, and a grid that
      pins neither rows nor columns keeps its value. */
  lemma FrozenGridEnablesMouseWheel(o: GridOptions, columnIds: seq<string>)
    requires Initialize(o).Ok?
    ensures o.enableMouseWheelScrollHandler.None? && FrozenVisibleColumnId(o, columnIds).Some? ==>
      Initialize(o).value.enableMouseWheelScrollHandler == Some(true)
    ensures o.enableMouseWheelScrollHandler.None? && o.frozenRow.Some? && o.frozenRow.value >= 0 ==>
      Initialize(o).value.enableMouseWheelScrollHandler == Some(true)
    ensures o.enableMouseWheelScrollHandler.Some? ==>
      Initialize(o).value.enableMouseWheelScrollHandler == o.enableMouseWheelScrollHandler
    ensures !IsFrozenGrid(o) ==> Initialize(o).value.enableMouseWheelScrollHandler == o.enableMouseWheelScrollHandler
  {
  }

  /** The translations a locale change triggers, when the grid translates. */
  datatype LocaleChangeCalls = LocaleChangeCalls(translateExtensions: bool, translateGroupingAndColSpan: bool)

  /** On a locale change a translating grid re-translates its menus, column
      headers and pickers, and the grouping/colspan headers when it has a
      pre-header panel that draggable grouping does not own. */
  function LocaleChange(o: GridOptions): LocaleChangeCalls {
    LocaleChangeCalls(o.enableTranslate, o.enableTranslate && o.createPreHeaderPanel && !o.enableDraggableGrouping)
  }

  /** A locale change re-translates the grouping/colspan headers exactly when
      the grid translates and construction started the grouping/colspan
      service, and never without the other translations. */
  lemma LocaleChangeTranslatesStartedGrouping(o: GridOptions)
    requires Initialize(o).Ok?
    ensures LocaleChange(o).translateGroupingAndColSpan <==> o.enableTranslate && Initialize(o).value.groupingAndColspanInit
    ensures LocaleChange(o).translateGroupingAndColSpan ==> LocaleChange(o).translateExtensions
    ensures o.enableDraggableGrouping ==> !Initialize(o).value.groupingAndColspanInit
  {
  }

  /** The export flags start their export services and touch nothing else
      that construction sets up. */
  lemma ExportFlagsOnlyStartExports(o: GridOptions, exports: bool, excelExports: bool)
    requires Initialize(o).Ok?
    ensures var o' := o.(enableExport := exports, enableExcelExport := excelExports);
            Initialize(o') == Ok(Initialize(o).value.(exportInit := exports, excelExportInit := excelExports))
  {
  }

  /** Either grouping flag attaches the group-item metadata provider to the
      DataView, and they change nothing else that construction sets up. */
  lemma GroupingFlagsOnlyAttachMetadata(o: GridOptions, draggable: bool, grouping: bool)
    requires Initialize(o).Ok?
    ensures var o' := o.(draggableGrouping := draggable, enableGrouping := grouping);
            Initialize(o') == Ok(Initialize(o).value.(groupItemMetadataProvider := draggable || grouping))
  {
  }

  /** A backend service binds filtering and sorting to itself unless it asks
      for local handling, in which case the grid binds as a local grid does;
      a local grid never binds to a backend. */
  lemma BackendBindsUnlessLocal(o: GridOptions, api: BackendServiceApi)
    requires Initialize(o).Ok?
    ensures var local := Initialize(o.(backendServiceApi := None)).value;
            var backend := Initialize(o.(backendServiceApi := Some(api))).value;
            && (api.useLocalFiltering ==> backend.filterBinding == local.filterBinding)
            && (!api.useLocalFiltering && o.enableFiltering ==> backend.filterBinding == BindBackend)
            && (api.useLocalSorting ==> backend.sortBinding == local.sortBinding)
            && (!api.useLocalSorting && o.enableSorting ==> backend.sortBinding == BindBackend)
            && local.filterBinding != BindBackend && local.sortBinding != BindBackend
            && (backend.filterBinding == NotBound <==> !o.enableFiltering)
            && (backend.sortBinding == NotBound <==> !o.enableSorting)
  {
  }

  /** Preset filters are only pushed into a bound filter service, and they
      are the preset list itself. */
  lemma FilterPresetsNeedBoundFiltering(o: GridOptions, api: Option<BackendServiceApi>)
    requires Initialize(o).Ok?
    ensures var p := Initialize(o).value;
            && (p.populateFilterPresets.Some? ==> p.filterBinding != NotBound)
            && (p.populateFilterPresets.Some? ==>
                  o.presets.Some? && p.populateFilterPresets == o.presets.value.filters && |o.presets.value.filters.value| > 0)
            && (o.enableFiltering && o.presets.Some? && o.presets.value.filters.Some? && |o.presets.value.filters.value| > 0 ==>
                  p.populateFilterPresets.Some?)
  {
  }

  /** A backend service changes only how filtering and sorting are bound:
      everything else construction sets up, the filter presets included, is
      the same with or without it. */
  lemma BackendOnlyChangesBindings(o: GridOptions, api: Option<BackendServiceApi>)
    requires Initialize(o).Ok?
    ensures var o' := o.(backendServiceApi := api);
            Initialize(o') == Ok(Initialize(o).value.(filterBinding := FilterBinding(o'), sortBinding := SortBinding(o')))
  {
  }

  // ---------------------------------------------------------------------------
  // columns

  /** The message logged when some column id contains a dot, if any does. */
  function ColumnIdWarning(ids: seq<string>): (r: Option<string>)
    ensures r.Some? <==> exists i :: 0 <= i < |ids| && '.' in ids[i]
    ensures r.Some? ==> r.value == COLUMN_ID_DOT_ERROR
    decreases |ids|
  {
    if |ids| == 0 then None
    else if '.' in ids[0] then Some(COLUMN_ID_DOT_ERROR)
    else
      var rest := ColumnIdWarning(ids[1..]);
      assert forall i :: 1 <= i < |ids| ==> ids[i] == ids[1..][i - 1];
      rest
  }

  /** The columns a column preset puts on the grid: the columns the grid-state
      service matched to the preset, with the checkbox-selector column kept in
      front when the selector is enabled and the matched list lacks it. */
  function ColumnsFromPreset(o: GridOptions, columnDefinitionIds: seq<string>, associated: seq<string>): (r: Option<seq<string>>)
    ensures o.presets.None? || o.presets.value.columns.None? || |o.presets.value.columns.value| == 0 || |associated| == 0
            ==> r.None?
    ensures r.Some? ==> r.value == associated || (|r.value| == |associated| + 1 && r.value[1..] == associated)
    ensures r.Some? && |r.value| > |associated| ==>
      r.value[0] == CHECKBOX_SELECTOR_COLUMN_ID && o.enableCheckboxSelector
    // with column presets and matched columns, the selector column is added
    // exactly when the grid's own columns start with it and the matched ones do not
    ensures o.presets.Some? && o.presets.value.columns.Some? && |o.presets.value.columns.value| > 0 && |associated| > 0 ==>
      var keepsSelector := o.enableCheckboxSelector && |columnDefinitionIds| > 0
                           && columnDefinitionIds[0] == CHECKBOX_SELECTOR_COLUMN_ID
                           && associated[0] != CHECKBOX_SELECTOR_COLUMN_ID;
      && (keepsSelector ==> r == Some([CHECKBOX_SELECTOR_COLUMN_ID] + associated))
      && (!keepsSelector ==> r == Some(associated))
  {
    if o.presets.Some? && o.presets.value.columns.Some? && |o.presets.value.columns.value| > 0 && |associated| > 0 then
      if o.enableCheckboxSelector && |columnDefinitionIds| > 0
         && columnDefinitionIds[0] == CHECKBOX_SELECTOR_COLUMN_ID && associated[0] != CHECKBOX_SELECTOR_COLUMN_ID then
        Some([columnDefinitionIds[0]] + associated)
      else Some(associated)
    else None
  }

  /** The id of the last frozen column, which the shared service keeps so the
      pinning survives column reordering. */
  function FrozenVisibleColumnId(o: GridOptions, columnIds: seq<string>): (r: Option<string>)
    ensures r.Some? <==> HasFrozenColumn(o) && o.frozenColumn.value < |columnIds|
    ensures r.Some? ==> r.value in columnIds
  {
    if HasFrozenColumn(o) && o.frozenColumn.value < |columnIds| then Some(columnIds[o.frozenColumn.value]) else None
  }

  /** The frozen options of a grid, as a pinning preset carries them. */
  function PinningOf(o: GridOptions): Pinning {
    Pinning(o.frozenBottom, o.frozenColumn, o.frozenRow)
  }

  /** Each option set in `top` replaces the one in `base`. */
  function OverlayPinning(base: Pinning, top: Pinning): (r: Pinning)
    ensures top.frozenBottom.Some? ==> r.frozenBottom == top.frozenBottom
    ensures top.frozenColumn.Some? ==> r.frozenColumn == top.frozenColumn
    ensures top.frozenRow.Some? ==> r.frozenRow == top.frozenRow
    ensures top.frozenBottom.None? ==> r.frozenBottom == base.frozenBottom
    ensures top.frozenColumn.None? ==> r.frozenColumn == base.frozenColumn
    ensures top.frozenRow.None? ==> r.frozenRow == base.frozenRow
  {
    Pinning(if top.frozenBottom.Some? then top.frozenBottom else base.frozenBottom,
            if top.frozenColumn.Some? then top.frozenColumn else base.frozenColumn,
            if top.frozenRow.Some? then top.frozenRow else base.frozenRow)
  }

  /** A pinning preset overrides the grid's frozen options; the rest of the options stay. */
  function ApplyPinningPreset(o: GridOptions): (r: GridOptions)
    ensures o.presets.None? || o.presets.value.pinning.None? ==> r == o
    ensures o.presets.Some? && o.presets.value.pinning.Some? ==>
      PinningOf(r) == OverlayPinning(PinningOf(o), o.presets.value.pinning.value)
    ensures r.(frozenBottom := o.frozenBottom, frozenColumn := o.frozenColumn, frozenRow := o.frozenRow) == o
  {
    if o.presets.Some? && o.presets.value.pinning.Some? then
      var p := OverlayPinning(PinningOf(o), o.presets.value.pinning.value);
      o.(frozenBottom := p.frozenBottom, frozenColumn := p.frozenColumn, frozenRow := p.frozenRow)
    else o
  }

  /** Applying the pinning preset a second time changes nothing. */
  lemma PinningPresetIdempotent(o: GridOptions)
    ensures ApplyPinningPreset(ApplyPinningPreset(o)) == ApplyPinningPreset(o)
  {
  }

  // ---------------------------------------------------------------------------
  // DataView selection sync

  /** Arguments of `dataView.syncGridSelection(grid, preserveHidden, preserveHiddenOnSelectionChange?)`. */
  datatype SyncCall = SyncCall(preserveHidden: bool, preserveHiddenOnSelectionChange: Option<bool>)

  /** The call made when the grid has a selection model and the DataView
      options set `syncGridSelection`: a flag is passed as is on a local grid
      and only together with `syncGridSelectionWithBackendService` on a backend
      grid; the object form passes its two preserve options. */
  function SyncGridSelectionCall(o: GridOptions, hasSelectionModel: bool): Option<SyncCall> {
    if hasSelectionModel && o.dataView.Some? && o.dataView.value.syncGridSelection.Some? then
      var withBackend := o.backendServiceApi.Some? && o.dataView.value.syncGridSelectionWithBackendService.GetOr(false);
      match o.dataView.value.syncGridSelection.value
      case SyncFlag(b) => Some(SyncCall(if IsLocalGrid(o) then b else b && withBackend, None))
      case SyncPreserve(h, c) => Some(SyncCall(h, Some(c)))
    else None
  }

  /** On a backend grid the flag form preserves the selection only when both
      flags are on: turning either off passes `false`. */
  lemma BackendSyncNeedsBothFlags(o: GridOptions, enabled: bool, withBackend: bool)
    requires o.backendServiceApi.Some?
    requires o.dataView.Some? && o.dataView.value.syncGridSelection == Some(SyncFlag(enabled))
    requires o.dataView.value.syncGridSelectionWithBackendService == Some(withBackend)
    ensures SyncGridSelectionCall(o, true) == Some(SyncCall(enabled && withBackend, None))
  {
  }

  /** A backend grid that opts in with `syncGridSelectionWithBackendService`
      makes the same call as the local grid, and so does any grid using the
      object form; the call needs a selection model and the option. */
  lemma SyncWithBackendLikeLocal(o: GridOptions, hasSelectionModel: bool, api: BackendServiceApi)
    ensures o.dataView.Some? && o.dataView.value.syncGridSelectionWithBackendService == Some(true) ==>
      SyncGridSelectionCall(o.(backendServiceApi := Some(api)), hasSelectionModel)
        == SyncGridSelectionCall(o.(backendServiceApi := None), hasSelectionModel)
    ensures o.dataView.Some? && o.dataView.value.syncGridSelection.Some? && o.dataView.value.syncGridSelection.value.SyncPreserve? ==>
      SyncGridSelectionCall(o.(backendServiceApi := Some(api)), hasSelectionModel)
        == SyncGridSelectionCall(o.(backendServiceApi := None), hasSelectionModel)
    ensures SyncGridSelectionCall(o, hasSelectionModel).Some? <==>
      hasSelectionModel && o.dataView.Some? && o.dataView.value.syncGridSelection.Some?
  {
  }

  /** On a local grid the flag is passed as is; the object form passes its two
      preserve options. */
  lemma LocalSyncPassesOption(o: GridOptions, preserveHidden: bool, onSelectionChange: bool)
    requires o.dataView.Some?
    ensures IsLocalGrid(o) && o.dataView.value.syncGridSelection == Some(SyncFlag(preserveHidden)) ==>
      SyncGridSelectionCall(o, true) == Some(SyncCall(preserveHidden, None))
    ensures o.dataView.value.syncGridSelection == Some(SyncPreserve(preserveHidden, onSelectionChange)) ==>
      SyncGridSelectionCall(o, true) == Some(SyncCall(preserveHidden, Some(onSelectionChange)))
  {
  }

  // ---------------------------------------------------------------------------
  // backend presets

  /** The calls the component makes on the backend service for the presets. */
  datatype BackendPresetCalls = BackendPresetCalls(
    updateFilters: Option<(seq<Filter>, bool)>,
    updateSorters: Option<seq<Sorter>>,
    updatePagination: Option<(int, int)>)

  /** With presets: preset filters flagged as presets, preset sorters (only the
      first when multi-column sort is off), and the preset page number and
      size. Without presets: the filter service's current column filters,
      flagged as not presets. */
  function BackendPresets(o: GridOptions, columnFilters: seq<Filter>): BackendPresetCalls {
    if o.presets.Some? then
      var p := o.presets.value;
      var filters := if p.filters.Some? && |p.filters.value| > 0 then Some((p.filters.value, true)) else None;
      var sorters :=
        if p.sorters.Some? && |p.sorters.value| > 0 then
          Some(if o.multiColumnSort.GetOr(DEFAULT_MULTI_COLUMN_SORT) then p.sorters.value else p.sorters.value[..1])
        else None;
      var page := if p.pagination.Some? then Some((p.pagination.value.pageNumber, p.pagination.value.pageSize)) else None;
      BackendPresetCalls(filters, sorters, page)
    else
      BackendPresetCalls(Some((columnFilters, false)), None, None)
  }

  /** Preset sorters reach the backend whole, unless multi-column sort is
      explicitly off, when only the first one does; either way they are a
      non-empty prefix of the preset list. */
  lemma SorterPresetRule(o: GridOptions, columnFilters: seq<Filter>)
    requires o.presets.Some? && o.presets.value.sorters.Some? && |o.presets.value.sorters.value| > 0
    ensures var sent := BackendPresets(o, columnFilters).updateSorters;
            var sorters := o.presets.value.sorters.value;
            && sent.Some?
            && 1 <= |sent.value| <= |sorters| && sent.value == sorters[..|sent.value|]
            && (o.multiColumnSort != Some(false) ==> sent.value == sorters)
            && (o.multiColumnSort == Some(false) ==> sent.value == [sorters[0]])
  {
    var sorters := o.presets.value.sorters.value;
    assert sorters[..|sorters|] == sorters;
  }

  /** Filters reach the backend flagged as presets exactly when they come from the presets. */
  lemma FilterPresetCallRule(o: GridOptions, columnFilters: seq<Filter>)
    ensures o.presets.None? ==> BackendPresets(o, columnFilters).updateFilters == Some((columnFilters, false))
    ensures BackendPresets(o, columnFilters).updateFilters.Some? && BackendPresets(o, columnFilters).updateFilters.value.1 ==>
      o.presets.Some? && BackendPresets(o, columnFilters).updateFilters.value.0 == o.presets.value.filters.value
    ensures o.presets.Some? && o.presets.value.pagination.Some? ==>
      BackendPresets(o, columnFilters).updatePagination ==
        Some((o.presets.value.pagination.value.pageNumber, o.presets.value.pagination.value.pageSize))
  {
  }

  // ---------------------------------------------------------------------------
  // pagination

  /** Field-wise merge: a field set in `next` wins, else the one in `base` stays. */
  function MergePagination(base: Pagination, next: Pagination): (r: Pagination)
    ensures next.pageNumber.Some? ==> r.pageNumber == next.pageNumber
    ensures next.pageNumber.None? ==> r.pageNumber == base.pageNumber
    ensures next.pageSize.Some? ==> r.pageSize == next.pageSize
    ensures next.pageSize.None? ==> r.pageSize == base.pageSize
    ensures next.pageSizes.Some? ==> r.pageSizes == next.pageSizes
    ensures next.pageSizes.None? ==> r.pageSizes == base.pageSizes
    ensures next.totalItems.Some? ==> r.totalItems == next.totalItems
    ensures next.totalItems.None? ==> r.totalItems == base.totalItems
  {
    Pagination(
      if next.pageNumber.Some? then next.pageNumber else base.pageNumber,
      if next.pageSize.Some? then next.pageSize else base.pageSize,
      if next.pageSizes.Some? then next.pageSizes else base.pageSizes,
      if next.totalItems.Some? then next.totalItems else base.totalItems)
  }

  /** Merging over a merge is a single merge with the later fields winning. */
  lemma MergePaginationAssociative(a: Pagination, b: Pagination, c: Pagination)
    ensures MergePagination(MergePagination(a, b), c) == MergePagination(a, MergePagination(b, c))
  {
  }

  /** A merge whose new object sets every field is that object. */
  lemma MergeWithCompletePagination(base: Pagination, next: Pagination)
    requires next.pageNumber.Some? && next.pageSize.Some? && next.pageSizes.Some? && next.totalItems.Some?
    ensures MergePagination(base, next) == next
  {
  }

  /** The component's pagination state: the grid options' `pagination` and the
      component's own copy. */
  datatype PaginationState = PaginationState(gridPagination: Option<Pagination>, paginationOptions: Option<Pagination>)

  /** Result of the `paginationOptions` setter: the state afterwards and the
      total passed to the pagination service's `updateTotalItems(total, true)`. */
  datatype PaginationUpdate = PaginationUpdate(state: PaginationState, updateTotalItems: int)

  /** The `paginationOptions` setter: a new object is merged over the grid
      options' pagination when the component already has options, else taken
      as is; both copies then hold the result. */
  function SetPaginationOptions(s: PaginationState, next: Option<Pagination>): (r: PaginationUpdate)
    ensures r.state.gridPagination == r.state.paginationOptions
    ensures next.None? ==> r.state.paginationOptions.None?
    ensures next.Some? && s.paginationOptions.None? ==> r.state.paginationOptions == next
    ensures next.Some? && s.paginationOptions.Some? ==>
      r.state.paginationOptions == Some(MergePagination(s.gridPagination.GetOr(Pagination(None, None, None, None)), next.value))
    ensures r.updateTotalItems == if next.Some? && next.value.totalItems.Some? then next.value.totalItems.value else 0
  {
    var result :=
      if next.Some? && s.paginationOptions.Some? then
        Some(MergePagination(s.gridPagination.GetOr(Pagination(None, None, None, None)), next.value))
      else next;
    var total := if next.Some? && next.value.totalItems.Some? then next.value.totalItems.value else 0;
    PaginationUpdate(PaginationState(result, result), total)
  }

  /** Assigning partial options over existing ones keeps the fields the new
      object leaves out. */
  lemma SetPaginationKeepsUnsetFields(s: PaginationState, next: Pagination)
    requires s.paginationOptions.Some? && s.gridPagination.Some?
    ensures var r := SetPaginationOptions(s, Some(next)).state.paginationOptions.value;
            && (next.totalItems.None? ==> r.totalItems == s.gridPagination.value.totalItems)
            && (next.pageSizes.None? ==> r.pageSizes == s.gridPagination.value.pageSizes)
            && (next.pageNumber.None? ==> r.pageNumber == s.gridPagination.value.pageNumber)
            && (next.pageSize.None? ==> r.pageSize == s.gridPagination.value.pageSize)
  {
  }

  /** A local grid with pagination, once its dataset is set: the total is the
      filtered row count when filtering is on, else the dataset length; the
      page number and size come from a pagination preset when there is one. */
  function LocalPaginationWithPresets(o: GridOptions, current: Pagination, datasetLength: nat, filteredTotalRows: nat): Pagination {
    var total := if o.enableFiltering then filteredTotalRows else datasetLength;
    var withTotal := current.(totalItems := Some(total));
    if o.presets.Some? && o.presets.value.pagination.Some? then
      var p := o.presets.value.pagination.value;
      withTotal.(pageNumber := Some(p.pageNumber), pageSize := Some(p.pageSize))
    else withTotal
  }

  /** Loading a local paginated grid is one partial pagination update: the
      row count and the preset's page number and size, merged over the current
      options so that the page sizes and, without a preset, the page stay. */
  lemma LocalPaginationIsPartialUpdate(o: GridOptions, current: Pagination, datasetLength: nat, filteredTotalRows: nat)
    ensures var preset := if o.presets.Some? then o.presets.value.pagination else None;
            var update := Pagination(
              if preset.Some? then Some(preset.value.pageNumber) else None,
              if preset.Some? then Some(preset.value.pageSize) else None,
              None,
              Some(if o.enableFiltering then filteredTotalRows else datasetLength));
            LocalPaginationWithPresets(o, current, datasetLength, filteredTotalRows) == MergePagination(current, update)
  {
  }

  /** The page a pagination preset restores survives a later assignment of
      pagination options that leaves the page number out. */
  lemma PresetPageSurvivesPartialOptions(o: GridOptions, current: Pagination, datasetLength: nat, filteredTotalRows: nat,
                                         next: Pagination)
    requires o.presets.Some? && o.presets.value.pagination.Some? && next.pageNumber.None?
    ensures var loaded := LocalPaginationWithPresets(o, current, datasetLength, filteredTotalRows);
            var s := PaginationState(Some(loaded), Some(loaded));
            SetPaginationOptions(s, Some(next)).state.paginationOptions.value.pageNumber
              == Some(o.presets.value.pagination.value.pageNumber)
  {
  }

  /** Page info a pagination change carries; only number and size are passed on. */
  datatype ServicePagination = ServicePagination(pageNumber: int, pageSize: int, pageSizes: seq<int>, dataFrom: int, dataTo: int, pageCount: int)

  /** What a pagination change does: whether the selected rows are reset to
      `[]`, and the `newValues` of the grid-state change it emits. */
  datatype PaginationChange = PaginationChange(resetSelectedRows: bool, newPageNumber: int, newPageSize: int)

  /** `paginationChanged(pagination)`: selected rows are reset when row
      selection or the checkbox selector is on and the grid-state service does
      not need to preserve the selection. */
  function PaginationChanged(o: GridOptions, needToPreserveRowSelection: bool, p: ServicePagination): PaginationChange {
    PaginationChange(!needToPreserveRowSelection && (o.enableRowSelection || o.enableCheckboxSelector), p.pageNumber, p.pageSize)
  }

  /** Two pagination changes with the same page number and size have the same
      effect: the data range, page count and page sizes are dropped. */
  lemma PaginationChangeKeepsOnlyPage(o: GridOptions, preserve: bool, p: ServicePagination, q: ServicePagination)
    requires p.pageNumber == q.pageNumber && p.pageSize == q.pageSize
    ensures PaginationChanged(o, preserve, p) == PaginationChanged(o, preserve, q)
    ensures PaginationChanged(o, preserve, p).newPageNumber == p.pageNumber
    ensures PaginationChanged(o, preserve, p).newPageSize == p.pageSize
  {
  }

  // ---------------------------------------------------------------------------
  // row-selection presets

  /** What a row-selection preset does: the data-context ids recorded in the
      grid-state service, and the rows to select in the grid (`None` when the
      grid is left alone). */
  datatype RowSelectionPlan = RowSelectionPlan(selectedIds: Option<seq<int>>, rowsToSelect: Option<seq<int>>)

  /** `loadRowSelectionPresetWhenExists`: with row selection or the checkbox
      selector on, a selection model and a preset giving ids or row indexes,
      the non-empty ids are mapped to rows (ids win), else the non-empty row
      indexes are mapped to ids; the rows are selected unless the grid is a
      local grid with pagination. `mapIdsToRows`/`mapRowsToIds` are the
      DataView's. */
  function RowSelectionPresetPlan(o: GridOptions, hasSelectionModel: bool,
                                  mapIdsToRows: seq<int> -> seq<int>, mapRowsToIds: seq<int> -> seq<int>): Option<RowSelectionPlan> {
    if (o.enableCheckboxSelector || o.enableRowSelection) && hasSelectionModel
       && o.presets.Some? && o.presets.value.rowSelection.Some?
       && (o.presets.value.rowSelection.value.gridRowIndexes.Some? || o.presets.value.rowSelection.value.dataContextIds.Some?) then
      var preset := o.presets.value.rowSelection.value;
      var ids := preset.dataContextIds;
      var rows := preset.gridRowIndexes;
      var mapped :=
        if ids.Some? && |ids.value| > 0 then (ids, Some(mapIdsToRows(ids.value)))
        else if rows.Some? && |rows.value| > 0 then (Some(mapRowsToIds(rows.value)), rows)
        else (ids, rows);
      var select := !(IsLocalGrid(o) && o.enablePagination) && mapped.1.Some?;
      Some(RowSelectionPlan(mapped.0, if select then mapped.1 else None))
    else None
  }

  /** When the DataView's id-to-row mapping is undone by its row-to-id
      mapping, the recorded ids are exactly the ids of the rows selected, and
      preset ids win over preset row indexes. */
  lemma PresetSelectionIdsMatchRows(o: GridOptions, hasSelectionModel: bool,
                                    mapIdsToRows: seq<int> -> seq<int>, mapRowsToIds: seq<int> -> seq<int>)
    requires forall ids :: mapRowsToIds(mapIdsToRows(ids)) == ids
    ensures var r := RowSelectionPresetPlan(o, hasSelectionModel, mapIdsToRows, mapRowsToIds);
            r.Some? && r.value.rowsToSelect.Some? && |r.value.rowsToSelect.value| > 0 ==>
              r.value.selectedIds == Some(mapRowsToIds(r.value.rowsToSelect.value))
    ensures var r := RowSelectionPresetPlan(o, hasSelectionModel, mapIdsToRows, mapRowsToIds);
            r.Some? && o.presets.value.rowSelection.value.dataContextIds.Some?
            && |o.presets.value.rowSelection.value.dataContextIds.value| > 0 ==>
              r.value.selectedIds == o.presets.value.rowSelection.value.dataContextIds
  {
  }

  /** A local grid with pagination records the same preset selection as
      without pagination but selects no rows in the grid. */
  lemma PaginatedLocalGridOnlyRecordsSelection(o: GridOptions, hasSelectionModel: bool,
                                               mapIdsToRows: seq<int> -> seq<int>, mapRowsToIds: seq<int> -> seq<int>)
    requires IsLocalGrid(o) && o.enablePagination
    ensures var paged := RowSelectionPresetPlan(o, hasSelectionModel, mapIdsToRows, mapRowsToIds);
            var unpaged := RowSelectionPresetPlan(o.(enablePagination := false), hasSelectionModel, mapIdsToRows, mapRowsToIds);
            && (paged.Some? <==> unpaged.Some?)
            && (paged.Some? ==> paged.value == unpaged.value.(rowsToSelect := None))
  {
  }

  /** A page change clears any selection a row-selection preset made, unless
      the grid-state service preserves it; a grid without row selection or the
      checkbox selector neither applies a preset nor clears rows. */
  lemma PageChangeClearsPresetSelection(o: GridOptions, hasSelectionModel: bool,
                                        mapIdsToRows: seq<int> -> seq<int>, mapRowsToIds: seq<int> -> seq<int>,
                                        preserve: bool, p: ServicePagination)
    ensures RowSelectionPresetPlan(o, hasSelectionModel, mapIdsToRows, mapRowsToIds).Some? && !preserve ==>
      PaginationChanged(o, preserve, p).resetSelectedRows
    ensures !(o.enableRowSelection || o.enableCheckboxSelector) ==>
      RowSelectionPresetPlan(o, hasSelectionModel, mapIdsToRows, mapRowsToIds).None?
      && !PaginationChanged(o, preserve, p).resetSelectedRows
    ensures preserve ==> !PaginationChanged(o, preserve, p).resetSelectedRows
    ensures RowSelectionPresetPlan(o, hasSelectionModel, mapIdsToRows, mapRowsToIds).Some? ==>
      hasSelectionModel && o.presets.Some? && o.presets.value.rowSelection.Some?
  {
  }

  // ---------------------------------------------------------------------------
  // custom footer

  /** The custom footer's resolved options. */
  datatype FooterOptions = FooterOptions(
    dateFormat: string,
    hideRowSelectionCount: bool,
    hideLastUpdateTimestamp: bool,
    hideTotalItemCount: bool,
    footerHeight: int,
    leftContainerClass: string,
    metricSeparator: string,
    rightContainerClass: string,
    metricTexts: map<string, string>)

  function DefaultMetricTexts(): map<string, string> {
    map["items" := "items", "itemsKey" := "ITEMS", "itemsSelected" := "items selected",
        "itemsSelectedKey" := "ITEMS_SELECTED", "of" := "of", "ofKey" := "OF"]
  }

  function DefaultFooterOptions(): FooterOptions {
    FooterOptions("yyyy-MM-dd, hh:mm aaaaa'm'", false, true, false, 20, "col-xs-12 col-sm-5", "|",
                  "col-xs-6 col-sm-7", DefaultMetricTexts())
  }

  /** The user's footer options deep-merged over the defaults. */
  function MergeFooterOptions(d: FooterOptions, u: CustomFooterOption): (r: FooterOptions)
    ensures forall k :: k in u.metricTexts ==> k in r.metricTexts && r.metricTexts[k] == u.metricTexts[k]
    ensures forall k :: k in d.metricTexts && k !in u.metricTexts ==> k in r.metricTexts && r.metricTexts[k] == d.metricTexts[k]
    ensures forall k :: k in r.metricTexts ==> k in d.metricTexts || k in u.metricTexts
    ensures r.dateFormat == u.dateFormat.GetOr(d.dateFormat) && r.footerHeight == u.footerHeight.GetOr(d.footerHeight)
    ensures r.metricSeparator == u.metricSeparator.GetOr(d.metricSeparator)
  {
    FooterOptions(
      u.dateFormat.GetOr(d.dateFormat),
      u.hideRowSelectionCount.GetOr(d.hideRowSelectionCount),
      u.hideLastUpdateTimestamp.GetOr(d.hideLastUpdateTimestamp),
      u.hideTotalItemCount.GetOr(d.hideTotalItemCount),
      u.footerHeight.GetOr(d.footerHeight),
      u.leftContainerClass.GetOr(d.leftContainerClass),
      u.metricSeparator.GetOr(d.metricSeparator),
      u.rightContainerClass.GetOr(d.rightContainerClass),
      d.metricTexts + u.metricTexts)
  }

  /** The custom footer is shown, with its resolved options, only when it is
      asked for and pagination is off. */
  function CustomFooter(o: GridOptions): (r: Option<FooterOptions>)
    ensures r.Some? <==> o.showCustomFooter && !o.enablePagination
    ensures r.Some? && o.customFooterOptions.None? ==> r.value == DefaultFooterOptions()
  {
    if o.showCustomFooter && !o.enablePagination then
      Some(if o.customFooterOptions.Some? then MergeFooterOptions(DefaultFooterOptions(), o.customFooterOptions.value)
           else DefaultFooterOptions())
    else None
  }

  /** User metric texts override the defaults key by key; the other defaults remain. */
  lemma FooterMetricTextsOverride(o: GridOptions, k: string)
    requires o.showCustomFooter && !o.enablePagination && o.customFooterOptions.Some?
    ensures var texts := CustomFooter(o).value.metricTexts;
            var user := o.customFooterOptions.value.metricTexts;
            && (k in user ==> k in texts && texts[k] == user[k])
            && (k !in user && k in DefaultMetricTexts() ==> k in texts && texts[k] == DefaultMetricTexts()[k])
  {
  }

  // ---------------------------------------------------------------------------
  // tree data

  datatype TreeConversion = NoConversion | ConvertFlatToTree | ConvertFlatToTreeAndSort

  /** Assigning a flat dataset to a tree grid converts it to a hierarchy, and
      also sorts it when an initial sort is configured. */
  function FlatDatasetConversion(o: GridOptions): TreeConversion {
    if !o.enableTreeData then NoConversion
    else if o.treeDataInitialSort then ConvertFlatToTreeAndSort
    else ConvertFlatToTree
  }

  /** An initial sort only adds sorting to the conversion of a tree grid, and
      a grid without tree data converts nothing whatever its sort. */
  lemma InitialSortOnlyAddsSorting(o: GridOptions)
    ensures o.enableTreeData ==>
      FlatDatasetConversion(o.(treeDataInitialSort := false)) == ConvertFlatToTree
      && FlatDatasetConversion(o.(treeDataInitialSort := true)) == ConvertFlatToTreeAndSort
    ensures !o.enableTreeData ==>
      FlatDatasetConversion(o.(treeDataInitialSort := false)) == NoConversion
      && FlatDatasetConversion(o.(treeDataInitialSort := true)) == NoConversion
  {
  }
}
