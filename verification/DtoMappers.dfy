/** Projections of a widget onto the records sent to the widget API. */
module DtoMappers {
  import opened Models

  /** The body of a create or update request. `pageId` is `None` when the
      key is not sent (update); `parentId` is always sent, as null. */
  datatype WidgetDto = WidgetDto(
    pageId: Option<string>,
    parentId: Option<string>,
    widgetType: string,
    labelText: Option<string>,
    config: Config,
    orderIndex: int,
    isVisible: bool,
    isPageTitle: bool)

  /** `toUpdateDto` */
  function ToUpdateDto(w: Widget): (d: WidgetDto)
  {
    WidgetDto(None, None, w.widgetType, w.labelText, w.config, w.orderIndex, w.isVisible, w.isPageTitle)
  }

  /** `toCreateDto` */
  function ToCreateDto(w: Widget): (d: WidgetDto)
  {
    WidgetDto(Some(w.pageId), None, w.widgetType, w.labelText, w.config, w.orderIndex, w.isVisible, w.isPageTitle)
  }

  /** Both DTOs send `parentId` as null whatever the widget's parent is,
      copy the editable fields unchanged, and differ only in `pageId`,
      which only the create DTO carries. */
  lemma DtoFields(w: Widget)
    ensures ToUpdateDto(w).parentId == None && ToCreateDto(w).parentId == None
    ensures ToUpdateDto(w).pageId == None && ToCreateDto(w).pageId == Some(w.pageId)
    ensures ToCreateDto(w) == ToUpdateDto(w).(pageId := Some(w.pageId))
    ensures var d := ToUpdateDto(w);
            d.widgetType == w.widgetType && d.labelText == w.labelText && d.config == w.config &&
            d.orderIndex == w.orderIndex && d.isVisible == w.isVisible && d.isPageTitle == w.isPageTitle
  {
  }

  /** Neither DTO depends on the widget's `id`, `parentId`, `createdAt` or
      `updatedAt`: widgets that differ only there map to the same DTOs. */
  lemma DtoIgnoresIdentityAndTimestamps(w: Widget, id: string, parentId: Option<string>, createdAt: string, updatedAt: Option<string>)
    ensures var w' := w.(id := id, parentId := parentId, createdAt := createdAt, updatedAt := updatedAt);
            ToUpdateDto(w') == ToUpdateDto(w) && ToCreateDto(w') == ToCreateDto(w)
  {
  }

  /** Conversely, the update DTO determines every editable field: two
      widgets with the same update DTO agree on all fields but `id`,
      `pageId`, `parentId` and the timestamps. */
  lemma UpdateDtoDeterminesEditableFields(w1: Widget, w2: Widget)
    requires ToUpdateDto(w1) == ToUpdateDto(w2)
    ensures w1.(id := w2.id, pageId := w2.pageId, parentId := w2.parentId,
                createdAt := w2.createdAt, updatedAt := w2.updatedAt) == w2
  {
  }
}
