/** The paragraph widget's inline editor: conversion between the paragraph
    text and the rich-text editor's value, and the `editing`/`value` state
    driven by double-click, blur and the Escape and Enter keys. */
module ParagraphWidget {
  import opened Models

  /** A node of the rich-text editor's value: a text leaf, or an element
      with a kind and a list of children. */
  datatype SlateNode = Leaf(text: string) | Element(kind: string, children: seq<SlateNode>)

  /** The text shown for a paragraph: its `text`, or "..." when that is
      missing or empty. */
  function DisplayText(text: Option<string>): (r: string)
  {
    if text.None? || text.value == "" then "..." else text.value
  }

  /** `initialValueFromText` */
  function InitialValue(text: Option<string>): (r: seq<SlateNode>)
  {
    [Element("paragraph", [Leaf(DisplayText(text))])]
  }

  /** The texts of the children, one after the other; an element child has
      no text of its own and contributes nothing. */
  function JoinTexts(children: seq<SlateNode>): (r: string)
  {
    if children == [] then ""
    else (if children[0].Leaf? then children[0].text else "") + JoinTexts(children[1..])
  }

  /** The position of the first element of a value, if any. */
  function FirstElement(value: seq<SlateNode>): (r: Option<nat>)
    ensures r.Some? ==> r.value < |value| && value[r.value].Element? &&
                        forall j :: 0 <= j < r.value ==> value[j].Leaf?
    ensures r.None? ==> forall j :: 0 <= j < |value| ==> value[j].Leaf?
  {
    if value == [] then None
    else if value[0].Element? then Some(0)
    else
      match FirstElement(value[1..])
      case None => None
      case Some(k) => Some(k + 1)
  }

  /** `textFromValue`: the joined texts of the first element, or "". */
  function TextFromValue(value: seq<SlateNode>): (r: string)
  {
    match FirstElement(value)
    case None => ""
    case Some(k) => JoinTexts(value[k].children)
  }

  /** Joining distributes over concatenation of the children. */
  lemma {:induction false} JoinTextsAppend(a: seq<SlateNode>, b: seq<SlateNode>)
    ensures JoinTexts(a + b) == JoinTexts(a) + JoinTexts(b)
    decreases |a|
  {
    if a == [] {
      assert a + b == b;
    } else {
      assert (a + b)[1..] == a[1..] + b;
      JoinTextsAppend(a[1..], b);
    }
  }

  /** Splitting a text leaf in two, as the editor does when part of it is
      formatted differently, does not change the extracted text. */
  lemma SplitLeafKeepsText(a: seq<SlateNode>, x: string, y: string, b: seq<SlateNode>)
    ensures JoinTexts(a + [Leaf(x + y)] + b) == JoinTexts(a + [Leaf(x), Leaf(y)] + b)
  {
    JoinTextsAppend(a + [Leaf(x + y)], b);
    JoinTextsAppend(a, [Leaf(x + y)]);
    JoinTextsAppend(a + [Leaf(x), Leaf(y)], b);
    JoinTextsAppend(a, [Leaf(x), Leaf(y)]);
    assert JoinTexts([Leaf(x), Leaf(y)]) == x + y by {
      assert [Leaf(x), Leaf(y)][1..] == [Leaf(y)];
      assert [Leaf(y)][1..] == [];
      assert y + "" == y;
    }
  }

  /** Round trip: the text read back from the initial value is the text it
      was made from when that is non-empty, and "..." otherwise. */
  lemma RoundTrip(text: Option<string>)
    ensures TextFromValue(InitialValue(text)) == if text.Some? && text.value != "" then text.value else "..."
  {
    var t := DisplayText(text);
    assert [Leaf(t)][1..] == [];
    assert JoinTexts([Leaf(t)]) == t + "" == t;
  }

  /** Text leaves before the first element are skipped, and everything
      after it is ignored. */
  lemma {:induction false} FirstElementDecides(leaves: seq<SlateNode>, e: SlateNode, rest: seq<SlateNode>)
    requires forall j :: 0 <= j < |leaves| ==> leaves[j].Leaf?
    requires e.Element?
    ensures TextFromValue(leaves + [e] + rest) == JoinTexts(e.children)
    decreases |leaves|
  {
    var v := leaves + [e] + rest;
    if leaves == [] {
      assert v[0] == e;
    } else {
      assert v[1..] == leaves[1..] + [e] + rest;
      FirstElementDecides(leaves[1..], e, rest);
      assert v[0].Leaf?;
    }
  }

  /** What a blur hands to `onConfigChange("text", ...)`, if anything: the
      text read from the editor, when there is a callback and that text
      differs from the current `config.text` (which may be missing). */
  function BlurWrite(value: seq<SlateNode>, configText: Option<string>, canEdit: bool): (r: Option<string>)
  {
    var newText := TextFromValue(value);
    if canEdit && Some(newText) != configText then Some(newText) else None
  }

  /** A blur that follows no edit writes nothing when the text is
      non-empty, and writes "..." when it is empty or missing. */
  lemma UneditedBlur(configText: Option<string>)
    ensures BlurWrite(InitialValue(configText), configText, true) ==
            if configText.Some? && configText.value != "" then None else Some("...")
  {
    RoundTrip(configText);
  }

  /** Commit round trip: once a blur has written `t`, the parent's
      `config.text` becomes `t`, which differs from the old text and so
      resets the value to the initial value of `t`; a second blur then
      writes nothing when `t` is non-empty, and "..." when it is empty. */
  lemma CommitThenBlur(value: seq<SlateNode>, configText: Option<string>, t: string)
    requires BlurWrite(value, configText, true) == Some(t)
    ensures Some(t) != configText
    ensures BlurWrite(InitialValue(Some(t)), Some(t), true) == if t != "" then None else Some("...")
  {
    UneditedBlur(Some(t));
  }

  datatype Key = Escape | Enter | OtherKey

  /** The widget's state. `canEdit` says whether an `onConfigChange`
      callback was passed; `configText` is the current `config.text`. */
  class ParagraphEditor {
    var editing: bool
    var value: seq<SlateNode>
    var configText: Option<string>
    const canEdit: bool

    constructor (text: Option<string>, canEdit: bool)
      ensures !editing && value == InitialValue(text)
      ensures configText == text && this.canEdit == canEdit
    {
      editing := false;
      value := InitialValue(text);
      configText := text;
      this.canEdit := canEdit;
    }

    /** A change of `config.text` resets the editor value to the new text;
        the same text leaves the value alone. */
    method ConfigTextChanged(text: Option<string>)
      modifies this
      ensures configText == text && editing == old(editing)
      ensures value == if text != old(configText) then InitialValue(text) else old(value)
    {
      if text != configText {
        value := InitialValue(text);
      }
      configText := text;
    }

    /** The editor reports a new value while the user types. */
    method Edit(newValue: seq<SlateNode>)
      modifies this
      ensures value == newValue && editing == old(editing) && configText == old(configText)
    {
      value := newValue;
    }

    /** `handleDoubleClick`: enter editing only when there is a callback. */
    method DoubleClick()
      modifies this
      ensures editing == (old(editing) || canEdit)
      ensures value == old(value) && configText == old(configText)
    {
      if canEdit {
        editing := true;
      }
    }

    /** `handleBlur`: leave editing, and return the text handed to the
        callback, if any. */
    method Blur() returns (write: Option<string>)
      modifies this
      ensures !editing && value == old(value) && configText == old(configText)
      ensures write == BlurWrite(old(value), configText, canEdit)
    {
      editing := false;
      var newText := TextFromValue(value);
      if canEdit && Some(newText) != configText {
        write := Some(newText);
      } else {
        write := None;
      }
    }

    /** `handleKeyDown`: Escape leaves editing and discards the edits
        without writing. Enter without Shift suppresses the newline and
        calls `blur()` on the wrapper element; whether that fires the
        wrapper's blur handler is the input `blurFires`. The wrapper does
        not itself hold focus (the editor inside it does), and blurring an
        element without focus does nothing, so in a browser `blurFires` is
        false and Enter changes no state. Any other key changes nothing. */
    method KeyDown(key: Key, shift: bool, blurFires: bool) returns (write: Option<string>)
      modifies this
      ensures configText == old(configText)
      ensures key == Escape ==> !editing && value == InitialValue(configText) && write == None
      ensures key == Enter && !shift && old(editing) && blurFires ==>
                !editing && value == old(value) && write == BlurWrite(old(value), configText, canEdit)
      ensures key == Enter && !shift && old(editing) && !blurFires ==>
                editing && value == old(value) && write == None
      ensures (key == OtherKey || (key == Enter && (shift || !old(editing)))) ==>
                editing == old(editing) && value == old(value) && write == None
    {
      write := None;
      if key == Escape {
        editing := false;
        value := InitialValue(configText);
      } else if key == Enter && !shift {
        if editing && blurFires {
          write := Blur();
        }
      }
    }
  }
}
