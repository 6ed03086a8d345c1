/** Record types shared by the widget-editing path of the page builder:
    the widget instance placed on a page, the page itself, and the
    first-match lookup by id that several components perform. */
module Models {

  datatype Option<T> = None | Some(value: T)

  /** A value stored in a widget's open `config` mapping. The core only
      ever inspects string values (default texts, heading sizes, paragraph
      text); every other JSON value is an opaque `Other`. */
  datatype Value = Str(s: string) | Other(tag: nat)

  type Config = map<string, Value>

  /** A single widget placed on a page. Optional fields (`parentId`,
      `label`, `updatedAt`) are `None` when absent or null. */
  datatype Widget = Widget(
    id: string,
    pageId: string,
    parentId: Option<string>,
    widgetType: string,
    labelText: Option<string>,  // the `label` field (a keyword in Dafny)
    config: Config,
    isVisible: bool,
    isPageTitle: bool,
    orderIndex: int,
    createdAt: string,
    updatedAt: Option<string>)

  /** A page of the application; pages form a forest through `parentId`. */
  datatype Page = Page(
    id: string,
    appInstanceId: string,
    name: string,
    title: string,
    documentation: string,
    url: string,
    platform: string,
    layoutType: string,
    layout: string,
    jsonDefinition: string,
    pageParameters: string,
    pageType: string,
    visibilityRules: string,
    onLoadAction: string,
    canvasWidth: int,
    canvasHeight: int,
    isHomePage: bool,
    isPublished: bool,
    orderIndex: int,
    parentId: Option<string>,
    creatorId: Option<string>,
    createdAt: string,
    updaterId: Option<string>,
    updatedAt: Option<string>)

  /** The ids of a widget list, in list order. */
  function Ids(ws: seq<Widget>): (r: seq<string>)
    ensures |r| == |ws|
    ensures forall k :: 0 <= k < |ws| ==> r[k] == ws[k].id
  {
    seq(|ws|, k requires 0 <= k < |ws| => ws[k].id)
  }

  /** The position of the first widget with the given id, or -1 when
      there is none. */
  function FindIndex(ws: seq<Widget>, id: string): (r: int)
    ensures -1 <= r < |ws|
    ensures r == -1 <==> forall k :: 0 <= k < |ws| ==> ws[k].id != id
    ensures r != -1 ==> ws[r].id == id && forall k :: 0 <= k < r ==> ws[k].id != id
  {
    if ws == [] then -1
    else if ws[0].id == id then 0
    else
      var r := FindIndex(ws[1..], id);
      if r == -1 then -1 else r + 1
  }
}
