/** The builder view's editing state: the widgets of the selected page,
    the selected page and the selected widget, with the handlers that
    select a page, add a widget and edit one config key of the selected
    widget. The new values are computed by the functions below; the class
    holds the component's state and applies them. */
module BuilderPage {
  import opened Models

  /** Default config of a freshly added widget, by type. */
  function DefaultConfig(widgetType: string): (c: Config)
    ensures "text" in c && c["text"].Str?
  {
    if widgetType == "Heading"
    then map["text" := Str("New Heading"), "size" := Str("h2")]
    else map["text" := Str("New paragraph content...")]
  }

  /** The widget `addWidget` creates. The fresh uuid and the creation
      timestamp are inputs. */
  function NewWidget(widgetType: string, pageId: string, uuid: string, now: string, count: nat): (w: Widget)
  {
    Widget(uuid, pageId, None, widgetType, Some(""), DefaultConfig(widgetType), true, false, count, now, None)
  }

  /** The widget list after a config edit: every widget with the selected
      id gets `key` set to `v` in its config; all others are unchanged. */
  function ConfigUpdated(ws: seq<Widget>, selected: Option<string>, key: string, v: Value): (r: seq<Widget>)
    ensures |r| == |ws|
  {
    seq(|ws|, i requires 0 <= i < |ws| =>
      if Some(ws[i].id) == selected then ws[i].(config := ws[i].config[key := v]) else ws[i])
  }

  /** The widget shown in the config panel: the first widget whose id is
      the selected one, if any. */
  function SelectedWidget(ws: seq<Widget>, selected: Option<string>): (r: Option<Widget>)
    ensures r.None? <==> selected.None? || forall k :: 0 <= k < |ws| ==> ws[k].id != selected.value
    ensures r.Some? ==> exists k :: 0 <= k < |ws| && ws[k] == r.value && Some(ws[k].id) == selected &&
                                    forall j :: 0 <= j < k ==> Some(ws[j].id) != selected
  {
    if selected.None? then None
    else
      var k := FindIndex(ws, selected.value);
      if k == -1 then None else Some(ws[k])
  }

  /** The config edit touches exactly one key of every widget carrying the
      selected id: that key now holds the value, every other key is as it
      was; every other widget, the length and the order are unchanged. */
  lemma ConfigUpdatedEffect(ws: seq<Widget>, selected: Option<string>, key: string, v: Value, i: nat)
    requires i < |ws|
    ensures var r := ConfigUpdated(ws, selected, key, v);
            r[i].id == ws[i].id &&
            r[i].(config := ws[i].config) == ws[i] &&
            (Some(ws[i].id) == selected ==>
               key in r[i].config && r[i].config[key] == v &&
               r[i].config.Keys == ws[i].config.Keys + {key} &&
               forall k :: k in ws[i].config && k != key ==> r[i].config[k] == ws[i].config[k]) &&
            (Some(ws[i].id) != selected ==> r[i] == ws[i])
  {
  }

  /** With no selected widget, or a selection that matches no widget, the
      edit changes nothing. */
  lemma ConfigUpdatedNoMatch(ws: seq<Widget>, selected: Option<string>, key: string, v: Value)
    requires selected.None? || forall k :: 0 <= k < |ws| ==> ws[k].id != selected.value
    ensures ConfigUpdated(ws, selected, key, v) == ws
  {
    var r := ConfigUpdated(ws, selected, key, v);
    assert forall k :: 0 <= k < |ws| ==> r[k] == ws[k];
  }

  /** Writing the same key and value twice is writing it once. */
  lemma ConfigUpdatedIdempotent(ws: seq<Widget>, selected: Option<string>, key: string, v: Value)
    ensures ConfigUpdated(ConfigUpdated(ws, selected, key, v), selected, key, v) == ConfigUpdated(ws, selected, key, v)
  {
    var once := ConfigUpdated(ws, selected, key, v);
    var twice := ConfigUpdated(once, selected, key, v);
    forall i | 0 <= i < |ws| ensures twice[i] == once[i] {
      if Some(ws[i].id) == selected {
        assert once[i].config[key := v] == once[i].config;
      }
    }
  }

  /** The selection lookup answers with the widget a config edit changes:
      after the edit, the selected widget is the old one with the key set. */
  lemma SelectedAfterUpdate(ws: seq<Widget>, selected: Option<string>, key: string, v: Value)
    ensures var before := SelectedWidget(ws, selected);
            var after := SelectedWidget(ConfigUpdated(ws, selected, key, v), selected);
            after.Some? == before.Some? &&
            (after.Some? ==> after.value == before.value.(config := before.value.config[key := v]))
  {
    var r := ConfigUpdated(ws, selected, key, v);
    assert Ids(r) == Ids(ws);
    if selected.Some? {
      var k := FindIndex(ws, selected.value);
      var k' := FindIndex(r, selected.value);
      if k != -1 {
        assert r[k].id == ws[k].id;
        assert k' == k;
      } else {
        assert forall j :: 0 <= j < |r| ==> r[j].id == ws[j].id;
      }
    }
  }

  /** The builder view's state. */
  class Builder {
    var widgets: seq<Widget>
    var selectedPageId: Option<string>
    var selectedWidgetId: Option<string>

    constructor ()
      ensures widgets == [] && selectedPageId == None && selectedWidgetId == None
    {
      widgets := [];
      selectedPageId := None;
      selectedWidgetId := None;
    }

    /** The selected widget shown in the config panel. */
    function Selected(): (r: Option<Widget>)
      reads this
    {
      SelectedWidget(widgets, selectedWidgetId)
    }

    /** `handleSelectPage`: select the page, replace the widgets with the
        list fetched for it (an input here) and clear the selection. */
    method SelectPage(id: string, fetched: seq<Widget>)
      modifies this
      ensures selectedPageId == Some(id)
      ensures widgets == fetched
      ensures selectedWidgetId == None
    {
      selectedPageId := Some(id);
      widgets := fetched;
      selectedWidgetId := None;
    }

    /** Clicking a widget on the canvas selects it. */
    method SelectWidget(id: string)
      modifies this
      ensures selectedWidgetId == Some(id)
      ensures widgets == old(widgets) && selectedPageId == old(selectedPageId)
    {
      selectedWidgetId := Some(id);
    }

    /** `addWidget`: append one new widget of the given type to the
        selected page. The add buttons are disabled while no page (or an
        empty page id) is selected. */
    method AddWidget(widgetType: string, uuid: string, now: string)
      requires selectedPageId.Some? && selectedPageId.value != ""
      modifies this
      ensures selectedPageId == old(selectedPageId) && selectedWidgetId == old(selectedWidgetId)
      ensures |widgets| == |old(widgets)| + 1
      ensures widgets[..|old(widgets)|] == old(widgets)
      ensures var w := widgets[|old(widgets)|];
              w.id == uuid && w.pageId == selectedPageId.value && w.widgetType == widgetType &&
              w.parentId == None && w.labelText == Some("") &&
              w.isVisible && !w.isPageTitle &&
              w.orderIndex == |old(widgets)| &&
              w.createdAt == now && w.updatedAt == None &&
              w.config == if widgetType == "Heading"
                          then map["text" := Str("New Heading"), "size" := Str("h2")]
                          else map["text" := Str("New paragraph content...")]
    {
      var w := NewWidget(widgetType, selectedPageId.value, uuid, now, |widgets|);
      widgets := widgets + [w];
    }

    /** `updateConfig`: set one config key of the selected widget. */
    method UpdateConfig(key: string, v: Value)
      modifies this
      ensures widgets == ConfigUpdated(old(widgets), selectedWidgetId, key, v)
      ensures selectedPageId == old(selectedPageId) && selectedWidgetId == old(selectedWidgetId)
      ensures Selected().Some? == old(Selected()).Some?
      ensures Selected().Some? ==> Selected().value == old(Selected()).value.(config := old(Selected()).value.config[key := v])
    {
      SelectedAfterUpdate(widgets, selectedWidgetId, key, v);
      widgets := ConfigUpdated(widgets, selectedWidgetId, key, v);
    }
  }
}
