# Widget editing in the page builder, modelled in Dafny

This project models the widget-editing path of a low-code page-builder front
end. Users pick a page, add typed widgets to its canvas, reorder them by drag
and drop, edit their configuration, and save them to a remote widget API. The
model covers six pieces of that path:

- **Drag-end reorder** (`WidgetCanvas.dfy`). When a widget is dropped on
  another widget of the flat list, it moves to that widget's position. The
  whole list is then renumbered so that every `orderIndex` equals the
  widget's position. The drag-and-drop library's `arrayMove` is not part of
  this model. `WidgetCanvas.ArrayMove` therefore ASSUMES its standard meaning:
  copy the list, remove the element at `from`, and insert it at `to`.
- **Page forest** (`Sidebar.dfy`). `buildTree` turns the flat page list into
  roots and children by following `parentId`. It is modelled as a method with
  the source's two loops. A node is named by its id, so the result is a list
  of root ids, the id → page dictionary, and a map from each id to its child
  ids. The code does no cycle check, so the result is a pointer graph.
- **Builder editing state** (`BuilderPage.dfy`). The class `Builder` holds the
  widgets, the selected page and the selected widget. Its methods select a
  page, add a widget and update one config key. The uuid, the timestamp and
  the fetched widget list are inputs.
- **DTO mapping** (`DtoMappers.dfy`). These are projections of a widget onto
  the create and update request bodies. `parentId` is always sent as null.
- **Save routing and endpoints** (`WidgetService.dfy`). These are request
  descriptors: method, path and body. The outcome of the existence probe
  (`widgetExists`) is an input.
- **Paragraph inline editor** (`ParagraphWidget.dfy`). This covers the
  rich-text value as a small node datatype, the conversions between text and
  value, and the `editing`/`value` state machine in the class
  `ParagraphEditor`.

`Models.dfy` holds the shared records:

- `Widget` and `Page` are datatypes.
- `config` is a `map<string, Value>`. `Value` distinguishes strings from all
  other JSON values.
- `FindIndex` is the id lookup that `findIndex` and `find` perform.

The code reorders one flat list. It renumbers the whole list, never nests
a widget by a drag, rejects no cycles, and always persists `parentId` as
null. `buildTree` keeps the input order of the pages.

## Model

| member | source | states |
|---|---|---|
| `Models.FindIndex` | src/components/WidgetCanvas.tsx:133-134 | The result is -1 exactly when no widget has the id. Otherwise it is the position of the first widget with that id. |
| `WidgetCanvas.ArrayMoveAt` | src/components/WidgetCanvas.tsx:137 | The moved list has the same length. The dragged element lands at `to`. Elements between `from` and `to` shift by one towards `from`. All others keep their positions. |
| `WidgetCanvas.ArrayMovePermutes` | src/components/WidgetCanvas.tsx:137 | The moved list is a permutation (same multiset) of the input. |
| `WidgetCanvas.Renumber` | src/components/WidgetCanvas.tsx:137-139 | Renumbering keeps the length. Every `orderIndex` becomes the widget's position. Apart from `orderIndex`, every widget is unchanged, `parentId` included. |
| `WidgetCanvas.OnDragEnd` | src/components/WidgetCanvas.tsx:129-142 | A drop with no target, onto itself, or with an id missing from the list changes nothing. A reorder happens only with both ids found, and it is the renumbered move from the dragged widget's index to the target's index. |
| `WidgetCanvas.DropOnOtherReorders` | src/components/WidgetCanvas.tsx:131-136 | A drop of a listed widget onto a different listed widget always reorders. |
| `WidgetCanvas.ReorderPermutesAndRenumbers` | src/components/WidgetCanvas.tsx:137-139 | After a reorder the list has the same length and the same multiset of ids. The order indices are exactly 0..n-1, whatever they were before. |
| `WidgetCanvas.ReorderPlacement` | src/components/WidgetCanvas.tsx:137-138 | Position k of the result holds the widget from `MovedFrom(from, to, k)`, with only `orderIndex` changed. The dragged widget sits at the target's old index. |
| `WidgetCanvas.DropLastOnFirst` | src/components/WidgetCanvas.tsx:133-139 | Example: [A, B, C] with C dropped on A gives [C(0), A(1), B(2)]. |
| `Sidebar.BuildTree` | src/components/Sidebar.tsx:27-41 | The two passes produce the last-page-wins id dictionary, an empty-then-filled child list for every node, roots equal to the root-placed page ids in input order, and children equal to the page ids placed under each node in input order. |
| `Sidebar.NodeIndexKeys` | src/components/Sidebar.tsx:30-32 | The dictionary has an entry for an id exactly when some page carries it. |
| `Sidebar.NodeIsLastPageWithId` | src/components/Sidebar.tsx:30-32 | Each node is a copy of the last page with its id. |
| `Sidebar.PlacementRule` | src/components/Sidebar.tsx:34-38 | A page is a root exactly when its `parentId` is missing, empty, or names no page of the input. Otherwise it goes under the named page. |
| `Sidebar.PlacedMember` | src/components/Sidebar.tsx:33-39 | An id is in a slot's list (the roots or one node's children) exactly when some page with that id is placed in that slot. |
| `Sidebar.PlacedInInputOrder` | src/components/Sidebar.tsx:33-39 | Roots and each child list are the placed pages at strictly increasing input positions. Every page placed in the slot appears. |
| `Sidebar.SelfParentIsOwnChild` | src/components/Sidebar.tsx:34-35 | With distinct ids, a page whose `parentId` is its own id is its own child and not a root. |
| `Sidebar.EveryPagePlacedOnce` | src/components/Sidebar.tsx:33-39 | The root count plus all child entries, summed over the distinct node ids, equals the number of pages. |
| `Sidebar.BuildTreeCount` | src/components/Sidebar.tsx:33-39 | With distinct page ids, the root count plus the child entries summed over the page ids equals the number of pages. |
| `BuilderPage.DefaultConfig` | src/views/BuilderPage.tsx:38-40 | Every default config carries a string `text`. |
| `BuilderPage.SelectedWidget` | src/views/BuilderPage.tsx:57 | The result is none exactly when nothing is selected or no widget has the selected id. Otherwise it is the first widget with that id. |
| `BuilderPage.ConfigUpdatedEffect` | src/views/BuilderPage.tsx:49-55 | A widget with the selected id gets the key set to the value and keeps its other keys and fields. Every other widget is unchanged, and ids keep their positions. |
| `BuilderPage.ConfigUpdatedNoMatch` | src/views/BuilderPage.tsx:50-54 | With no selection, or a selection matching no widget, the list is unchanged. |
| `BuilderPage.ConfigUpdatedIdempotent` | src/views/BuilderPage.tsx:50-54 | Applying the same key and value twice equals applying it once. |
| `BuilderPage.SelectedAfterUpdate` | src/views/BuilderPage.tsx:49-57 | After an edit, the selected-widget lookup finds the previously selected widget with the key set. |
| `BuilderPage.Builder.constructor` | src/views/BuilderPage.tsx:14-17 | The view starts with no widgets, no selected page and no selected widget. |
| `BuilderPage.Builder.SelectPage` | src/views/BuilderPage.tsx:25-30 | Selecting a page sets it, replaces the widgets with the fetched list and clears the widget selection. |
| `BuilderPage.Builder.SelectWidget` | src/views/BuilderPage.tsx:85 | Clicking a widget selects its id and changes nothing else. |
| `BuilderPage.Builder.AddWidget` | src/views/BuilderPage.tsx:32-47 | It appends exactly one widget and leaves the existing ones unchanged. The new widget's `orderIndex` is the old length and its `pageId` is the selected page. It is visible, not a page title, has label "" and no parent. Its config is {text: "New Heading", size: "h2"} for "Heading", else {text: "New paragraph content..."}. The add buttons require a selected page (src/views/BuilderPage.tsx:75-76). |
| `BuilderPage.Builder.UpdateConfig` | src/views/BuilderPage.tsx:49-57 | The new widget list is the config update of the old list under the current selection. The selection is unchanged. The selected widget shown in the panel is the old one with the key set. |
| `DtoMappers.DtoFields` | src/services/dtoMappers.ts:6-39 | Both DTOs send `parentId` null and copy type, label, config, order, visibility and page-title flag. The create DTO is the update DTO plus `pageId`. |
| `DtoMappers.DtoIgnoresIdentityAndTimestamps` | src/services/dtoMappers.ts:12-38 | Neither DTO depends on `id`, `parentId`, `createdAt` or `updatedAt`. |
| `DtoMappers.UpdateDtoDeterminesEditableFields` | src/services/dtoMappers.ts:30-38 | Two widgets with equal update DTOs agree on every field except id, page, parent and the timestamps. |
| `WidgetService.SaveWidgetRequests` | src/services/widgetService.ts:44-80 | Save issues the probe GET `/Widgets/{id}`, then exactly one write. It is a PUT of the update DTO to `/Widgets/{id}` when the probe succeeded. Any probe failure yields a POST of the create DTO to `/Widgets`. `parentId` is null either way. |
| `WidgetService.WidgetPathInjective` | src/services/widgetService.ts:34 | Distinct ids give distinct `/Widgets/{id}` paths. |
| `WidgetService.ListAndWidgetPathsDiffer` | src/services/widgetService.ts:20-34 | The list path `/Widgets/page/{pageId}` never equals a widget path whose id has no '/'. |
| `ParagraphWidget.FirstElement` | src/components/widgets/ParagraphWidget/ParagraphWidget.tsx:21 | It finds the first node with children, which is an element preceded only by text leaves, or reports that there is none. |
| `ParagraphWidget.JoinTextsAppend` | src/components/widgets/ParagraphWidget/ParagraphWidget.tsx:22 | Joining the children's texts distributes over concatenation. |
| `ParagraphWidget.SplitLeafKeepsText` | src/components/widgets/ParagraphWidget/ParagraphWidget.tsx:22 | Splitting a text leaf into two leaves does not change the extracted text. |
| `ParagraphWidget.RoundTrip` | src/components/widgets/ParagraphWidget/ParagraphWidget.tsx:10-23 | Text read back from the initial value is the original when non-empty, and "..." when it is empty or missing. |
| `ParagraphWidget.FirstElementDecides` | src/components/widgets/ParagraphWidget/ParagraphWidget.tsx:19-23 | Leaves before the first element are skipped. Nodes after it are ignored. |
| `ParagraphWidget.UneditedBlur` | src/components/widgets/ParagraphWidget/ParagraphWidget.tsx:42-48 | A blur without edits writes nothing for non-empty text. For empty or missing text it writes "...". |
| `ParagraphWidget.CommitThenBlur` | src/components/widgets/ParagraphWidget/ParagraphWidget.tsx:31-48 | After a blur writes `t`, the new `config.text` differs from the old one, so the value resets to the initial value of `t`. A second blur then writes nothing when `t` is non-empty, and "..." when it is empty. |
| `ParagraphWidget.ParagraphEditor.constructor` | src/components/widgets/ParagraphWidget/ParagraphWidget.tsx:26-28 | The editor starts not editing, with the initial value of `config.text`. |
| `ParagraphWidget.ParagraphEditor.ConfigTextChanged` | src/components/widgets/ParagraphWidget/ParagraphWidget.tsx:31-33 | A changed `config.text` resets the value to its initial value. An unchanged one keeps the value. |
| `ParagraphWidget.ParagraphEditor.Edit` | src/components/widgets/ParagraphWidget/ParagraphWidget.tsx:68 | The editor's change callback replaces the value and nothing else. |
| `ParagraphWidget.ParagraphEditor.DoubleClick` | src/components/widgets/ParagraphWidget/ParagraphWidget.tsx:35-40 | Double-click enters editing only when a callback was given. |
| `ParagraphWidget.ParagraphEditor.Blur` | src/components/widgets/ParagraphWidget/ParagraphWidget.tsx:42-48 | Blur leaves editing, keeps the value, and returns the write `BlurWrite` decides. |
| `ParagraphWidget.ParagraphEditor.KeyDown` | src/components/widgets/ParagraphWidget/ParagraphWidget.tsx:50-63 | Escape leaves editing and resets the value from `config.text` without writing. Enter without Shift while editing acts as a blur only if the wrapper's `blur()` fires the blur handler (input `blurFires`). Otherwise it keeps editing, keeps the value and writes nothing. Other keys change nothing. |

## Left out

- HTTP and asynchrony: `getData`, `putData`, `postData` and `deleteData` are not part of this model. Their results are inputs: the fetched widget list and the existence-probe outcome. Awaiting, and interleavings of handlers around an await, are not modelled. For example, a slow fetch in `handleSelectPage` could finish after a later page selection.
- Auth: the optional `encodedCredential` argument, the auth-header client (`apiClient.ts`, `wpClient.ts`) and the `console` logging are not part of this model.
- Other services: the page, widget-definition, WordPress and domain-model services are one-line fetch wrappers with no logic. They are not part of this model.
- Initial page fetch: the builder view's load of the page list (`getPages` in an effect) is I/O and is not modelled.
- Rendering: the widget renderers, the sortable item rendering, the sidebar's `renderTree` and the other presentational components are not modelled.
- Rich-text editor internals (`createEditor`, `Editable`, focus handling) are not part of this model. Only the value datatype and the two conversions are.
- `ParagraphWidget.ParagraphEditor.KeyDown`: on Enter the code calls `blur()` on the wrapper element, while the focus is on the editor inside it. Browser focus handling is not part of this model, so whether the blur handler runs is the input `blurFires`. By the HTML unfocusing steps, blurring an element that does not hold focus does nothing, so `blurFires` is false in a browser. Enter then only suppresses the newline.
- `ParagraphWidget.InitialValue`: a `config.text` that is neither a string nor missing (a number, say) is treated as missing. The code would store the value itself in the text leaf.
- `Sidebar.BuildTree`: page ids that collide with built-in object properties of the plain-object dictionary (such as `constructor`) are not modelled. The model treats the dictionary as a plain map.
- `WidgetCanvas.ArrayMove`: negative indices, which the library counts from the end, are not modelled. The indices come from successful `findIndex` calls and are never negative.
- Ids: the drag-and-drop library allows numeric ids. The model uses strings, as the widget records do.
