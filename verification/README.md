# Angular-Slickgrid core, modelled in Dafny

Angular-Slickgrid wraps the SlickGrid data grid in an Angular component. This
project models four parts of it as pure functions over immutable data and
proves what each part promises:

- the **checkbox selector extension** (`create`, `getAddonInstance`,
  `register`, `dispose`). It injects the row-selection checkbox column into
  the column definitions, registers the plugin on the grid, installs a
  row-selection model when needed and schedules the preselection.
- the **input (password) editor**:
  - the text validator (required, min/max length, inclusive or exclusive
    bounds, custom validator, custom error message);
  - `loadValue`, `serializeValue` and `applyValue`, including dot-path
    ("complex object") fields;
  - `isValueChanged` and `save`.
- the **tree formatter**. It renders a tree-data cell: a 15px-per-level
  spacer, an expand/collapse toggle from the next row's level, and the
  HTML-encoded title or the `titleFormatter` output. It fails when the row
  has no tree level.
- the **grid component's option rules**:
  - the resize-strategy conflict error;
  - which services are initialised and bound, locally or to a backend
    service;
  - the DataView `syncGridSelection` call;
  - backend presets, with sorters truncated to one when multi-column sort is
    off;
  - pinning presets and the mousewheel handler;
  - the translations a locale change asks for;
  - the pagination setter's merge and the pagination change;
  - row-selection presets and column presets;
  - custom footer option merging;
  - the column-id dot warning;
  - tree dataset conversion.

Shared modules:

- `Wrappers`: `Option` and `Result`.
- `Text`: decimal text, HTML encoding and decoding, `split` and `indexOf`.
- `Records`: JavaScript values as a datatype. It provides truthiness,
  `getDescendantProperty` and `setDeepValue`.

A thrown error is an `Err` carrying the part of the library's message that its
tests check. A foreign object
(a SlickGrid plugin, the DataView, a grid-state service) is one of two things:
- a parameter holding the value it returns (`mapIdsToRows`,
  `getAssociatedGridColumns`, the custom validator, the `titleFormatter`);
- a record of which of its methods the code calls and with what arguments.
Object identity of created plugins is an instance number.

The editor, the formatter and the component are modelled from their unit
tests and the library's implementations of them. Where the tests leave a
choice open:

- Text lengths in the validator are JavaScript `length`s, counted in UTF-16
  code units (`Text.Utf16Length`): a character above U+FFFF counts twice.
- `InputEditor.LoadValue`: the loaded value is assigned to the input, which
  shows `null` as the empty string and `undefined` as `"undefined"`. A dot
  path that leads nowhere therefore loads `"undefined"`; a missing or falsy
  plain field loads `''` because the library falls back to `''` there.
- `InputEditor.Save`: invalid text goes to `commitChanges`. Only valid text
  with `autoCommitEdit` uses the editor lock's `commitCurrentEdit`. The test
  titled "should not call anything" (inputPasswordEditor.spec.ts:335-347)
  asserts only that `commitCurrentEdit` is not called. The model does call
  `commitChanges` there, as the library's `save` does.
- `GridOptionRules.SyncGridSelectionCall`: the object form of
  `dataView.syncGridSelection` passes its own `preserveHidden` and
  `preserveHiddenOnSelectionChange`. The test at
  angular-slickgrid-constructor.spec.ts:625-636 passes `preserveHidden: true`
  and `preserveHiddenOnSelectionChange: false` and expects
  `syncGridSelection(grid, true, false)`. Because `preserveHidden` is `true`
  there, the test does not tell this apart from passing `true` as the second
  argument for any object.
- `GridOptionRules.SetPaginationOptions`: `updateTotalItems` gets the
  `totalItems` of the object assigned, or 0. It does not get the merged
  object's total. Both readings fit the tests at 1364-1385.
- `multiColumnSort` is on unless set to `false`. That is the effective
  global default the test at 948-958 relies on. The option's doc comment in
  gridOption.interface.ts says it defaults to false.
- The defaults of the four resize options are taken from the library's
  global grid options: fit-viewport and autosize on, both by-content
  strategies off.

## Model

A function that only computes a result (`Format`, `Validate`,
`SerializeValue`, `IsValueChanged`, `BackendPresets`,
`GetDescendantProperty`, `SetDeepValue`, `GetAddonInstance`,
`MouseWheelScrollHandler`, `SyncGridSelectionCall`,
`LocalPaginationWithPresets`, `PaginationChanged`, `RowSelectionPresetPlan`,
`LocaleChange`, `FlatDatasetConversion`) has no row of its own: the lemmas
that state its behaviour carry the rows.

| member | source | states |
|---|---|---|
| CheckboxSelector.StampSelectionColumn | src/app/modules/angular-slickgrid/extensions/checkboxSelectorExtension.ts:38-44 | the injected column is excluded from export, column picker, grid menu, queries and header menu; its maxWidth is its width when non-zero, else 30; id, field and width are kept |
| CheckboxSelector.InsertionIndex | src/app/modules/angular-slickgrid/extensions/checkboxSelectorExtension.ts:47-52 | a position <= 0 inserts at the front, a position past the end appends (splice clamping), otherwise the column lands at the given position |
| CheckboxSelector.InsertSelectionColumn | src/app/modules/angular-slickgrid/extensions/checkboxSelectorExtension.ts:47-52 | the list grows by one, the column sits at the insertion index, and the columns before and after it are the original ones in order |
| CheckboxSelector.InsertThenRemove | src/app/modules/angular-slickgrid/extensions/checkboxSelectorExtension.ts:47-52 | removing the inserted column gives back the original column list |
| CheckboxSelector.Create | src/app/modules/angular-slickgrid/extensions/checkboxSelectorExtension.ts:32-57 | without a column array and grid options nothing changes and null is returned; otherwise the addon is constructed only when none exists (with the checkboxSelector options or {}), returned, and the stamped column is inserted so that removing it restores the input |
| CheckboxSelector.CreateReusesAddon | src/app/modules/angular-slickgrid/extensions/checkboxSelectorExtension.ts:34-36 | a second create returns the same addon instance as the first and constructs nothing; getAddonInstance returns it |
| CheckboxSelector.CreateStampsSelectionColumn | src/app/modules/angular-slickgrid/extensions/checkboxSelectorExtension.ts:37-53 | after create the column at the insertion index carries all five exclusions and its maxWidth, and every original column is still in the list |
| CheckboxSelector.Register | src/app/modules/angular-slickgrid/extensions/checkboxSelectorExtension.ts:64-85 | without grid and grid options nothing changes and null is returned; otherwise the addon is appended to the grid's plugins, a new row-selection model, carrying the grid's rowSelectionOptions (or {}), is installed and returned exactly when no plugin was passed or the grid has none, else the passed plugin is returned and the model left as is; the preselection is scheduled exactly when preselectedRows is set |
| CheckboxSelector.RegisterKeepsExistingModel | src/app/modules/angular-slickgrid/extensions/checkboxSelectorExtension.ts:70-73 | with a plugin passed and a model already on the grid, the grid's model is unchanged and the passed plugin is returned |
| CheckboxSelector.RegisterLeavesSelectionModel | src/app/modules/angular-slickgrid/extensions/checkboxSelectorExtension.ts:70-77 | after a register that runs, the grid always has a selection model, so the preselection condition only depends on preselectedRows |
| CheckboxSelector.Dispose | src/app/modules/angular-slickgrid/extensions/checkboxSelectorExtension.ts:18-26 | the addon becomes null, the row-selection plugin reference is kept, and the destroy log grows by the addon's destroy (if any) then the plugin's (if any) |
| CheckboxSelector.CountAddonDestroyedAppend | src/app/modules/angular-slickgrid/extensions/checkboxSelectorExtension.ts:18-26 | addon destroys in a concatenated log add up |
| CheckboxSelector.DisposeTwice | src/app/modules/angular-slickgrid/extensions/checkboxSelectorExtension.ts:18-26 | disposing twice destroys the addon at most once, but destroys the kept row-selection plugin once per call |
| InputEditor.Init | src/app/modules/angular-slickgrid/editors/__tests__/inputPasswordEditor.spec.ts:63-70 | without arguments the editor throws the invalid-arguments message; with them it starts with an empty input and no loaded value |
| InputEditor.ValidateAcceptsExactly | src/app/modules/angular-slickgrid/editors/__tests__/inputPasswordEditor.spec.ts:368-500 | without a custom validator, a text is valid exactly when it is acceptable (not an empty required value and inside each bound, inclusive or exclusive); valid results carry no message and invalid ones always do; lengths are counted in UTF-16 code units |
| InputEditor.AstralCharacterCountsTwice | src/app/modules/angular-slickgrid/editors/__tests__/inputPasswordEditor.spec.ts:385-408 | a single character above U+FFFF is two code units long, so it meets an inclusive lower bound of 2 |
| InputEditor.RequiredRule | src/app/modules/angular-slickgrid/editors/__tests__/inputPasswordEditor.spec.ts:369-383 | a required field fails on empty text with "Field is required" and passes any non-empty text when no bounds are set |
| InputEditor.MinLengthRule | src/app/modules/angular-slickgrid/editors/__tests__/inputPasswordEditor.spec.ts:385-408 | with only a lower bound, too-short text fails with the inclusive or exclusive "at least" message and longer text passes |
| InputEditor.MaxLengthRule | src/app/modules/angular-slickgrid/editors/__tests__/inputPasswordEditor.spec.ts:410-451 | with only an upper bound, too-long text fails with the inclusive or exclusive "less than" message and shorter text passes |
| InputEditor.BetweenRule | src/app/modules/angular-slickgrid/editors/__tests__/inputPasswordEditor.spec.ts:453-491 | with both bounds, text outside them fails with the "between" message and text inside passes |
| InputEditor.ApplyValue | src/app/modules/angular-slickgrid/editors/__tests__/inputPasswordEditor.spec.ts:223-259 | without a field name the item is returned untouched |
| InputEditor.ApplyValueFlatField | src/app/modules/angular-slickgrid/editors/__tests__/inputPasswordEditor.spec.ts:224-232 | a plain field gets the applied value and every other property is left alone |
| InputEditor.ApplyValueComplexField | src/app/modules/angular-slickgrid/editors/__tests__/inputPasswordEditor.spec.ts:234-243 | a dot-path field reads back as the applied value; properties other than the path's first segment, and nested properties off the path inside existing objects, are left alone |
| InputEditor.ApplyValueBlanksInvalid | src/app/modules/angular-slickgrid/editors/__tests__/inputPasswordEditor.spec.ts:245-259 | with a field name, a text the validator rejects is written into the record as the empty string: a plain field then holds `''`, and a dot path reads back as `''` |
| InputEditor.LoadValue | src/app/modules/angular-slickgrid/editors/__tests__/inputPasswordEditor.spec.ts:148-154 | loading keeps the arguments and key state; a falsy item or missing field changes nothing; otherwise the input shows the loaded value's text, with null shown as '' and undefined as "undefined" |
| InputEditor.LoadMissingPathShowsUndefined | src/app/modules/angular-slickgrid/editors/__tests__/inputPasswordEditor.spec.ts:282-301 | a dot-path field whose path leads nowhere loads undefined, so the input serializes "undefined" and the editor reports a change |
| InputEditor.LoadSerializeFlat | src/app/modules/angular-slickgrid/editors/__tests__/inputPasswordEditor.spec.ts:262-290 | loading then serializing a plain field gives its string, and the empty string when the value is missing, null or empty |
| InputEditor.LoadSerializeComplex | src/app/modules/angular-slickgrid/editors/__tests__/inputPasswordEditor.spec.ts:292-301 | loading then serializing a dot-path field gives the string at the end of the path |
| InputEditor.ApplyLoadSerialize | src/app/modules/angular-slickgrid/editors/__tests__/inputPasswordEditor.spec.ts:223-301 | apply, load and serialize round trip: the state comes back when it validates, the empty string otherwise |
| InputEditor.LoadedValueUnchanged | src/app/modules/angular-slickgrid/editors/__tests__/inputPasswordEditor.spec.ts:196-207 | a freshly loaded string or null value is not reported as changed |
| InputEditor.ValueChangedAfterEdit | src/app/modules/angular-slickgrid/editors/__tests__/inputPasswordEditor.spec.ts:183-207 | after loading a non-empty string, a change is reported exactly when the text differs from it |
| InputEditor.EnterAlwaysSaves | src/app/modules/angular-slickgrid/editors/__tests__/inputPasswordEditor.spec.ts:209-221 | with alwaysSaveOnEnterKey, an ENTER keydown is always a change |
| InputEditor.Save | src/app/modules/angular-slickgrid/editors/__tests__/inputPasswordEditor.spec.ts:309-333 | the editor lock commits exactly when autoCommitEdit is on and the text validates; otherwise commitChanges is called |
| InputEditor.SaveRequiredEmpty | src/app/modules/angular-slickgrid/editors/__tests__/inputPasswordEditor.spec.ts:335-347 | an empty required value never goes through the editor lock |
| Text.HtmlEncode | src/app/modules/angular-slickgrid/formatters/__tests__/treeFormatter.spec.ts:151-162 | the encoded title is never shorter than the text, holds no angle bracket or quote, and is the text itself when nothing needs encoding |
| Text.HtmlEncodeRoundTrip | src/app/modules/angular-slickgrid/formatters/__tests__/treeFormatter.spec.ts:151-162 | decoding the encoded text gives back the original text |
| Text.IntToStringRoundTrip | src/app/modules/angular-slickgrid/formatters/__tests__/treeFormatter.spec.ts:59-93 | the decimal text written for a level or a width parses back to that number |
| Text.IndexOf | src/app/modules/angular-slickgrid/formatters/__tests__/treeFormatter.spec.ts:164-175 | indexOf gives the first position of the character, and -1 exactly when it does not occur |
| Records.GetAfterSetDeepValue | src/app/modules/angular-slickgrid/editors/__tests__/inputPasswordEditor.spec.ts:234-243 | reading a dot path back after writing a value along it gives the value written |
| Records.SetPathFrame | src/app/modules/angular-slickgrid/editors/__tests__/inputPasswordEditor.spec.ts:234-243 | writing along a dot path leaves every property other than the path's first segment as it was |
| Records.SetPathNestedFrame | src/app/modules/angular-slickgrid/editors/__tests__/inputPasswordEditor.spec.ts:234-243 | writing along a dot path leaves every nested property off the path as it was: a key path that leaves the written path at some depth reads the same value afterwards, wherever the objects the path passes through already existed |
| TreeFormatter.IndexOfId | src/app/modules/angular-slickgrid/formatters/__tests__/treeFormatter.spec.ts:95-117 | the DataView lookup finds the first row carrying the item's id, or reports that no row does |
| TreeFormatter.FormatFailsExactly | src/app/modules/angular-slickgrid/formatters/__tests__/treeFormatter.spec.ts:34-37 | the formatter throws the missing-tree-level message exactly when there is a row and a value to show but no level on the row |
| TreeFormatter.FormatEmptyCases | src/app/modules/angular-slickgrid/formatters/__tests__/treeFormatter.spec.ts:39-57 | the output is empty for an undefined row, for a null or undefined value, and whenever no DataView is available |
| TreeFormatter.CellLayout | src/app/modules/angular-slickgrid/formatters/__tests__/treeFormatter.spec.ts:59-93 | a rendered cell's class is slick-tree-level-L with L readable back from it, and its text opens with that level's spacer |
| TreeFormatter.SpacerWidth | src/app/modules/angular-slickgrid/formatters/__tests__/treeFormatter.spec.ts:59-93 | the spacer is 15 pixels per level, and the width written can be parsed back |
| TreeFormatter.RenderedToggleFollowsNextRow | src/app/modules/angular-slickgrid/formatters/__tests__/treeFormatter.spec.ts:59-117 | in a rendered cell the spacer is followed by the expanded icon exactly when the row after the item's own DataView row is deeper and the item is not collapsed, by the collapsed icon exactly when it is deeper and the item is collapsed, and by no icon exactly when there is no deeper next row |
| TreeFormatter.NextRowFollowsItem | src/app/modules/angular-slickgrid/formatters/__tests__/treeFormatter.spec.ts:95-117 | the next row is the one right after the item's own row in the DataView |
| TreeFormatter.TitleEncoded | src/app/modules/angular-slickgrid/formatters/__tests__/treeFormatter.spec.ts:151-162 | a string title is HTML-encoded: it holds no angle bracket and decodes back to the string |
| TreeFormatter.CellTitleReadsBackShownValue | src/app/modules/angular-slickgrid/formatters/__tests__/treeFormatter.spec.ts:59-162 | without a titleFormatter a rendered cell ends with a title span whose text gives the shown value back: a string decodes to itself and holds no angle bracket, a number parses back to itself |
| TreeFormatter.CellTitleFromTitleFormatter | src/app/modules/angular-slickgrid/formatters/__tests__/treeFormatter.spec.ts:119-136 | with a titleFormatter its output is placed in the title span unchanged |
| TreeFormatter.PlainGetterTitle | src/app/modules/angular-slickgrid/formatters/__tests__/treeFormatter.spec.ts:138-162 | when the field-name getter names an own property of the row, a rendered cell ends with the title span of that property's value |
| TreeFormatter.DottedGetterTitle | src/app/modules/angular-slickgrid/formatters/__tests__/treeFormatter.spec.ts:164-175 | when the field-name getter names a dotted path, a rendered cell ends with the title span of the value found along that path |
| TreeFormatter.TitleIsLastSpan | src/app/modules/angular-slickgrid/formatters/__tests__/treeFormatter.spec.ts:59-117 | without a titleFormatter, a rendered cell ends with the title span of the shown value |
| GridOptionRules.Initialize | src/app/modules/angular-slickgrid/components/__tests__/angular-slickgrid-constructor.spec.ts:484-517 | construction fails, with the resize-technique message, exactly when fit-viewport or autosize is on together with its by-content counterpart |
| GridOptionRules.DefaultResizeOptionsDoNotClash | src/app/modules/angular-slickgrid/components/__tests__/angular-slickgrid-constructor.spec.ts:438-462 | leaving every resize option at its default never fails |
| GridOptionRules.ByContentNeedsOptOut | src/app/modules/angular-slickgrid/components/__tests__/angular-slickgrid-constructor.spec.ts:464-517 | turning a by-content strategy on without switching its default-on counterpart off fails with the resize-technique message |
| GridOptionRules.FrozenVisibleColumnId | src/app/modules/angular-slickgrid/components/__tests__/angular-slickgrid-constructor.spec.ts:355-363 | a frozen column index inside the columns yields that column's id, which is one of the column ids; otherwise nothing is recorded |
| GridOptionRules.FrozenGridEnablesMouseWheel | src/app/modules/angular-slickgrid/components/__tests__/angular-slickgrid-constructor.spec.ts:345-363 | a grid that records a frozen column id and leaves the mousewheel handler unset has it turned on, and so does a grid that pins rows (`frozenRow >= 0`); a value the user set is kept; a grid that pins neither rows nor columns keeps its value |
| GridOptionRules.LocaleChangeTranslatesStartedGrouping | src/app/modules/angular-slickgrid/components/__tests__/angular-slickgrid-constructor.spec.ts:1275-1334 | a locale change re-translates the grouping/colspan headers exactly when the grid translates and construction started the grouping/colspan service, and only together with the other translations; draggable grouping keeps that service off |
| GridOptionRules.ExportFlagsOnlyStartExports | src/app/modules/angular-slickgrid/components/__tests__/angular-slickgrid-constructor.spec.ts:761-777 | changing the two export flags starts or stops exactly the matching export services and changes nothing else construction sets up |
| GridOptionRules.GroupingFlagsOnlyAttachMetadata | src/app/modules/angular-slickgrid/components/__tests__/angular-slickgrid-constructor.spec.ts:549-578 | changing the two grouping flags only decides whether the group-item metadata provider is attached, which either flag does |
| GridOptionRules.BackendBindsUnlessLocal | src/app/modules/angular-slickgrid/components/__tests__/angular-slickgrid-constructor.spec.ts:1157-1218 | a backend service binds filtering and sorting to itself unless it asks for local handling, when the grid binds exactly as without a backend; a local grid never binds to a backend; each feature is bound exactly when enabled |
| GridOptionRules.BackendOnlyChangesBindings | src/app/modules/angular-slickgrid/components/__tests__/angular-slickgrid-constructor.spec.ts:1157-1250 | adding or removing a backend service changes only the filter and sort bindings of what construction sets up |
| GridOptionRules.FilterPresetsNeedBoundFiltering | src/app/modules/angular-slickgrid/components/__tests__/angular-slickgrid-constructor.spec.ts:1220-1250 | preset filters are pushed only into a bound filter service, they are the non-empty preset list, and with filtering on a non-empty preset list is always pushed |
| GridOptionRules.ColumnIdWarning | src/app/modules/angular-slickgrid/components/__tests__/angular-slickgrid-constructor.spec.ts:520-528 | the dot-in-column-id message is logged exactly when some column id contains a dot |
| GridOptionRules.ColumnsFromPreset | src/app/modules/angular-slickgrid/components/__tests__/angular-slickgrid-constructor.spec.ts:1106-1132 | without column presets or matched columns nothing is set; otherwise the matched columns are set, with the checkbox-selector column added in front exactly when the selector is enabled, the grid's columns start with it and the matched ones do not |
| GridOptionRules.OverlayPinning | src/app/modules/angular-slickgrid/components/__tests__/angular-slickgrid-constructor.spec.ts:929-936 | each frozen option set in the preset replaces the grid's, the others stay |
| GridOptionRules.ApplyPinningPreset | src/app/modules/angular-slickgrid/components/__tests__/angular-slickgrid-constructor.spec.ts:929-936 | a pinning preset overlays the grid's frozen options and changes no other option; without one the options are unchanged |
| GridOptionRules.PinningPresetIdempotent | src/app/modules/angular-slickgrid/components/__tests__/angular-slickgrid-constructor.spec.ts:929-936 | applying the pinning preset twice is the same as once |
| GridOptionRules.SyncWithBackendLikeLocal | src/app/modules/angular-slickgrid/components/__tests__/angular-slickgrid-constructor.spec.ts:604-687 | syncGridSelection is called exactly when the grid has a selection model and the option is set; a backend grid that sets syncGridSelectionWithBackendService, and any grid using the object form, makes the same call as the local grid |
| GridOptionRules.LocalSyncPassesOption | src/app/modules/angular-slickgrid/components/__tests__/angular-slickgrid-constructor.spec.ts:604-636 | a local grid passes the flag as is, and the object form passes its two preserve options |
| GridOptionRules.BackendSyncNeedsBothFlags | src/app/modules/angular-slickgrid/components/__tests__/angular-slickgrid-constructor.spec.ts:638-687 | on a backend grid the selection is preserved only when both flags are on |
| GridOptionRules.SorterPresetRule | src/app/modules/angular-slickgrid/components/__tests__/angular-slickgrid-constructor.spec.ts:948-969 | preset sorters reach the backend as a non-empty prefix of the preset list: all of them unless multi-column sort is off, then only the first |
| GridOptionRules.FilterPresetCallRule | src/app/modules/angular-slickgrid/components/__tests__/angular-slickgrid-constructor.spec.ts:917-978 | without presets the current column filters are sent flagged as not presets; filters flagged as presets are the preset filters; a pagination preset sends its page number and size |
| GridOptionRules.MergePagination | src/app/modules/angular-slickgrid/components/__tests__/angular-slickgrid-constructor.spec.ts:1364-1373 | every field set in the new pagination object wins, every field it leaves out keeps the old value |
| GridOptionRules.MergePaginationAssociative | src/app/modules/angular-slickgrid/components/__tests__/angular-slickgrid-constructor.spec.ts:1364-1373 | two successive merges equal one merge of the merged updates |
| GridOptionRules.MergeWithCompletePagination | src/app/modules/angular-slickgrid/components/__tests__/angular-slickgrid-constructor.spec.ts:1364-1373 | merging an object that sets every field yields that object |
| GridOptionRules.SetPaginationOptions | src/app/modules/angular-slickgrid/components/__tests__/angular-slickgrid-constructor.spec.ts:1364-1385 | the grid options and the component hold the same pagination afterwards: merged over the grid's when options existed, the new object otherwise; the total items of the new object (or 0) go to updateTotalItems |
| GridOptionRules.SetPaginationKeepsUnsetFields | src/app/modules/angular-slickgrid/components/__tests__/angular-slickgrid-constructor.spec.ts:1364-1373 | assigning partial options over existing ones keeps the fields the new object leaves out |
| GridOptionRules.LocalPaginationIsPartialUpdate | src/app/modules/angular-slickgrid/components/__tests__/angular-slickgrid-constructor.spec.ts:788-838 | loading a local paginated grid merges one partial update over the current pagination: the total (the filtered row count when filtering is on, else the dataset length) and the preset's page number and size, so page sizes and, without a preset, the page are kept |
| GridOptionRules.PresetPageSurvivesPartialOptions | src/app/modules/angular-slickgrid/components/__tests__/angular-slickgrid-constructor.spec.ts:788-838 | the page a pagination preset restores survives a later assignment of pagination options that leaves the page number out |
| GridOptionRules.PaginationChangeKeepsOnlyPage | src/app/modules/angular-slickgrid/components/__tests__/angular-slickgrid-constructor.spec.ts:1387-1420 | a pagination change emits the page number and size, and two changes with the same page number and size have the same effect whatever their data range, page count and page sizes |
| GridOptionRules.PresetSelectionIdsMatchRows | src/app/modules/angular-slickgrid/components/__tests__/angular-slickgrid-constructor.spec.ts:1556-1591 | when the DataView's row-to-id mapping undoes its id-to-row mapping, the recorded ids are exactly the ids of the rows selected, and preset ids win over preset row indexes |
| GridOptionRules.PaginatedLocalGridOnlyRecordsSelection | src/app/modules/angular-slickgrid/components/__tests__/angular-slickgrid-constructor.spec.ts:1593-1611 | a local grid with pagination records the same preset selection as without pagination but selects no rows |
| GridOptionRules.PageChangeClearsPresetSelection | src/app/modules/angular-slickgrid/components/__tests__/angular-slickgrid-constructor.spec.ts:1422-1455 | a page change clears any selection a row-selection preset made unless the selection is preserved; a preserved selection is never cleared; without row selection or the checkbox selector no preset applies and no rows are cleared |
| GridOptionRules.MergeFooterOptions | src/app/modules/angular-slickgrid/components/__tests__/angular-slickgrid-constructor.spec.ts:1492-1532 | user footer options override the defaults field by field, and metric texts key by key with no key invented |
| GridOptionRules.CustomFooter | src/app/modules/angular-slickgrid/components/__tests__/angular-slickgrid-constructor.spec.ts:1457-1549 | the custom footer exists exactly when it is asked for and pagination is off; without user options it uses the defaults |
| GridOptionRules.FooterMetricTextsOverride | src/app/modules/angular-slickgrid/components/__tests__/angular-slickgrid-constructor.spec.ts:1492-1532 | a user metric text replaces the default for its key, and the other default texts remain |
| GridOptionRules.InitialSortOnlyAddsSorting | src/app/modules/angular-slickgrid/components/__tests__/angular-slickgrid-constructor.spec.ts:1647-1690 | on a tree grid a flat dataset is converted, and also sorted exactly when an initial sort is configured; a grid without tree data converts nothing whatever its sort |

## Left out

- DOM construction: element creation, placeholders and titles, focus and its timer, key propagation (`stopImmediatePropagation`), and the `focusout` handler. Only what these decide is modelled: the text, the key code, which commit is called.
- The deferred `setTimeout` preselection in `register`. The model records that it is scheduled, not when it runs.
- Event emitters and the event aggregator, Angular lifecycle hooks, the translation service, and header rendering (`translateColumnHeaders`, `renderColumnHeaders`, `showHeaderRow`, and the `setHeaderRowVisibility` call a locale change may make). These are effects on foreign services; only which translations a locale change asks for is modelled.
- The backend service's asynchronous processing: `executeProcessCommandOnInit`, promises and observables, `createBackendApiInternalPostProcessCallback`, `internalPostProcess`, the dataset-name mismatch case, and the refresh after visibility changes.
- Async editor collections, `autoAddCustomEditorFormatter`, the colspan `getItemMetadata` callback, and the autosize/resize calls made on first load. They call into services whose code is not part of this model.
- Tree dataset conversion and sorting themselves (`convertFlatParentChildToTreeDataset`, `sortHierarchicalDataset`, `refreshTreeDataFilters`) and hierarchical datasets. Only the choice of conversion is modelled.
- The custom footer's locale-based fill-in of the last-update text, and its timestamp.
- Arrays as dataset values, floating-point numbers, and string conversion of non-integer numbers. `Value` has integer numbers only.
- TreeFormatter.FormatFailsExactly: a tree level that is present but not a number is treated like a missing level. The source would compute with it.
- TreeFormatter.PlainGetterTitle: the field-name getter is run only when there is a row. With an undefined row the output is empty before the getter is consulted.
- GridOptionRules.Initialize: the resize-clash error carries only the sentence the tests look for with `toContain`. The library's message goes on to name the two pairs of options to choose between, and that continuation is not part of the model.
- CheckboxSelector.Create: a null column definition is not modelled. In the library `typeof null` is `'object'`, so such a column gets past the type check and then throws when it is stamped. `pluginColumn None` stands for a value that is not an object.
- CheckboxSelector.Register: the preselection check on the grid's selection model is not restated separately. After `register` runs, the grid always has a model.
- `gridOption.interface.ts` is only read for option names and documented defaults. It has no behaviour of its own.
