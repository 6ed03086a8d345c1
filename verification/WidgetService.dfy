/** The widget service: endpoint paths built from ids, and the save path
    that checks whether a widget exists and then updates it (PUT) or
    creates it (POST). The HTTP calls themselves are left to the caller:
    the model returns request descriptors, and the outcome of the existence
    check is an input. */
module WidgetService {
  import opened Models
  import opened DtoMappers

  const BaseEndpoint: string := "/Widgets"

  datatype HttpMethod = Get | Put | Post | Delete

  datatype Request = Request(verb: HttpMethod, path: string, body: Option<WidgetDto>)

  /** The outcome of the existence probe's GET. */
  datatype ProbeOutcome = Found | Failed

  /** `getWidgetsByPageId` */
  function ListByPageRequest(pageId: string): (r: Request)
  {
    Request(Get, BaseEndpoint + "/page/" + pageId, None)
  }

  /** `deleteWidget` */
  function DeleteRequest(id: string): (r: Request)
  {
    Request(Delete, BaseEndpoint + "/" + id, None)
  }

  /** The GET that `widgetExists` issues. */
  function ProbeRequest(id: string): (r: Request)
  {
    Request(Get, BaseEndpoint + "/" + id, None)
  }

  /** `widgetExists`: true exactly when the GET succeeded; any failure of
      the call counts as "does not exist". */
  function WidgetExists(outcome: ProbeOutcome): (r: bool)
  {
    outcome == Found
  }

  /** `saveWidget`: the requests issued, in order, given the outcome of the
      existence probe. The body is built here as the source builds it,
      independently of the mappers. */
  function SaveWidget(w: Widget, probe: ProbeOutcome): (rs: seq<Request>)
  {
    var dto := WidgetDto(None, None, w.widgetType, w.labelText, w.config, w.orderIndex, w.isVisible, w.isPageTitle);
    if WidgetExists(probe) then
      [ProbeRequest(w.id), Request(Put, BaseEndpoint + "/" + w.id, Some(dto))]
    else
      [ProbeRequest(w.id), Request(Post, BaseEndpoint, Some(dto.(pageId := Some(w.pageId))))]
  }

  /** Save issues the probe and then exactly one write: a PUT of the update
      DTO to the widget's own path when the probe found it, otherwise a
      POST of the create DTO to the collection. Either way `parentId` is
      sent as null. */
  lemma SaveWidgetRequests(w: Widget, probe: ProbeOutcome)
    ensures var rs := SaveWidget(w, probe);
            |rs| == 2 &&
            rs[0] == Request(Get, "/Widgets/" + w.id, None) &&
            (probe == Found ==> rs[1] == Request(Put, "/Widgets/" + w.id, Some(ToUpdateDto(w)))) &&
            (probe == Failed ==> rs[1] == Request(Post, "/Widgets", Some(ToCreateDto(w)))) &&
            rs[1].body.Some? && rs[1].body.value.parentId == None
  {
  }

  /** The id can be read back from a widget path: the paths of distinct
      ids are distinct, so a PUT or DELETE names exactly one widget. */
  lemma WidgetPathInjective(id1: string, id2: string)
    requires DeleteRequest(id1).path == DeleteRequest(id2).path
    ensures id1 == id2
  {
    var prefix := BaseEndpoint + "/";
    assert id1 == DeleteRequest(id1).path[|prefix|..];
    assert id2 == DeleteRequest(id2).path[|prefix|..];
  }

  /** The list path lies under the collection path as `page/{pageId}`;
      a widget path never coincides with a list path when the widget id
      has no '/' (uuids have none). */
  lemma ListAndWidgetPathsDiffer(pageId: string, id: string)
    requires '/' !in id
    ensures ListByPageRequest(pageId).path != DeleteRequest(id).path
  {
    var prefix := BaseEndpoint + "/";
    assert ListByPageRequest(pageId).path[|prefix| + 4] == '/';
    assert DeleteRequest(id).path[|prefix|..] == id;
  }
}
