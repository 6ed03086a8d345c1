/** The page sidebar's `buildTree`: turns the flat page list into a forest
    by following each page's `parentId`. Nodes are shared objects in the
    source, reached through an id -> node dictionary; here a node is named
    by its id, so the forest is the list of root ids, the dictionary of
    nodes and, per node, the ids of its children. There is no cycle check,
    so the result is a pointer graph, not necessarily a tree. */
module Sidebar {
  import opened Models

  datatype Forest = Forest(
    roots: seq<string>,
    nodes: map<string, Page>,
    children: map<string, seq<string>>)

  /** Where the second pass puts one page. */
  datatype Slot = Root | Under(parent: string)

  /** The id -> node dictionary after the first pass: every id of the list,
      mapped to the last page carrying it (a later page overwrites). */
  function NodeIndex(pages: seq<Page>): (r: map<string, Page>)
    decreases |pages|
  {
    if pages == [] then map[]
    else NodeIndex(pages[..|pages| - 1])[pages[|pages| - 1].id := pages[|pages| - 1]]
  }

  /** A page goes under its parent when `parentId` is truthy (present and
      not the empty string) and names a node; otherwise it is a root. */
  function Placement(p: Page, index: map<string, Page>): (r: Slot)
  {
    if p.parentId.Some? && p.parentId.value != "" && p.parentId.value in index
    then Under(p.parentId.value)
    else Root
  }

  /** The ids of the pages placed in `slot`, in input order. */
  function Placed(pages: seq<Page>, index: map<string, Page>, slot: Slot): (r: seq<string>)
    decreases |pages|
  {
    if pages == [] then []
    else
      var last := pages[|pages| - 1];
      Placed(pages[..|pages| - 1], index, slot) + (if Placement(last, index) == slot then [last.id] else [])
  }

  /** The positions of the pages placed in `slot`, in increasing order. */
  function PlacedPositions(pages: seq<Page>, index: map<string, Page>, slot: Slot): (r: seq<nat>)
    decreases |pages|
  {
    if pages == [] then []
    else
      var n := |pages| - 1;
      PlacedPositions(pages[..n], index, slot) + (if Placement(pages[n], index) == slot then [n] else [])
  }

  /** One step of the second pass: extending the prefix by one page adds
      its id to its own slot and to no other. */
  lemma PlacedSnoc(pages: seq<Page>, i: nat, index: map<string, Page>)
    requires i < |pages|
    ensures forall slot: Slot {:trigger Placed(pages[..i + 1], index, slot)} ::
              Placed(pages[..i + 1], index, slot) ==
              Placed(pages[..i], index, slot) + (if Placement(pages[i], index) == slot then [pages[i].id] else [])
  {
    assert pages[..i + 1][..i] == pages[..i];
  }

  /** `buildTree`: a first pass that creates one node per page with an
      empty child list, and a second pass that appends every page to its
      parent's children or to the roots. */
  method BuildTree(pages: seq<Page>) returns (f: Forest)
    ensures f.nodes == NodeIndex(pages)
    ensures f.children.Keys == f.nodes.Keys
    ensures f.roots == Placed(pages, f.nodes, Root)
    ensures forall id :: id in f.children ==> f.children[id] == Placed(pages, f.nodes, Under(id))
  {
    var idToNode: map<string, Page> := map[];
    var children: map<string, seq<string>> := map[];
    var roots: seq<string> := [];
    var i := 0;
    while i < |pages|
      invariant i <= |pages|
      invariant idToNode == NodeIndex(pages[..i])
      invariant children.Keys == idToNode.Keys
      invariant forall id :: id in children ==> children[id] == []
    {
      assert pages[..i + 1][..i] == pages[..i];
      assert NodeIndex(pages[..i + 1]) == NodeIndex(pages[..i])[pages[i].id := pages[i]];
      idToNode := idToNode[pages[i].id := pages[i]];
      children := children[pages[i].id := []];
      i := i + 1;
    }
    assert pages[..i] == pages;
    i := 0;
    while i < |pages|
      invariant i <= |pages|
      invariant children.Keys == idToNode.Keys
      invariant roots == Placed(pages[..i], idToNode, Root)
      invariant forall id :: id in children ==> children[id] == Placed(pages[..i], idToNode, Under(id))
    {
      var page := pages[i];
      PlacedSnoc(pages, i, idToNode);
      if page.parentId.Some? && page.parentId.value != "" && page.parentId.value in idToNode {
        var pid := page.parentId.value;
        children := children[pid := children[pid] + [page.id]];
      } else {
        roots := roots + [page.id];
      }
      i := i + 1;
    }
    assert pages[..i] == pages;
    f := Forest(roots, idToNode, children);
  }

  /** The dictionary holds exactly the ids of the input. */
  lemma {:induction false} NodeIndexKeys(pages: seq<Page>, id: string)
    ensures id in NodeIndex(pages) <==> exists k :: 0 <= k < |pages| && pages[k].id == id
    decreases |pages|
  {
    if pages != [] {
      var n := |pages| - 1;
      NodeIndexKeys(pages[..n], id);
      if id in NodeIndex(pages[..n]) {
        var k :| 0 <= k < n && pages[..n][k].id == id;
        assert pages[k].id == id;
      }
      if exists k :: 0 <= k < |pages| && pages[k].id == id {
        var k :| 0 <= k < |pages| && pages[k].id == id;
        if k < n { assert pages[..n][k].id == id; }
      }
    }
  }

  /** Each node starts as a copy of its page (the last page with that id),
      before any child is added. */
  lemma {:induction false} NodeIsLastPageWithId(pages: seq<Page>, k: nat)
    requires k < |pages|
    requires forall j :: k < j < |pages| ==> pages[j].id != pages[k].id
    ensures pages[k].id in NodeIndex(pages) && NodeIndex(pages)[pages[k].id] == pages[k]
    decreases |pages|
  {
    var n := |pages| - 1;
    if k < n {
      NodeIsLastPageWithId(pages[..n], k);
    }
  }

  /** The positions really are those of the pages placed in `slot`: they
      increase strictly, they list every such page, and their ids are the
      placed ids. So roots and every child list keep input order. */
  lemma {:induction false} PlacedInInputOrder(pages: seq<Page>, index: map<string, Page>, slot: Slot)
    ensures var pos := PlacedPositions(pages, index, slot);
            var ids := Placed(pages, index, slot);
            |pos| == |ids| &&
            (forall j :: 0 <= j < |pos| ==> pos[j] < |pages| && ids[j] == pages[pos[j]].id &&
                                            Placement(pages[pos[j]], index) == slot) &&
            (forall j, l :: 0 <= j < l < |pos| ==> pos[j] < pos[l]) &&
            (forall k :: 0 <= k < |pages| && Placement(pages[k], index) == slot ==> k in pos)
    decreases |pages|
  {
    if pages != [] {
      var n := |pages| - 1;
      PlacedInInputOrder(pages[..n], index, slot);
    }
  }

  /** Membership in a slot, by id. */
  lemma {:induction false} PlacedMember(pages: seq<Page>, index: map<string, Page>, slot: Slot, id: string)
    ensures id in Placed(pages, index, slot) <==>
            exists k :: 0 <= k < |pages| && pages[k].id == id && Placement(pages[k], index) == slot
    decreases |pages|
  {
    if pages != [] {
      var n := |pages| - 1;
      PlacedMember(pages[..n], index, slot, id);
      if exists k :: 0 <= k < |pages| && pages[k].id == id && Placement(pages[k], index) == slot {
        var k :| 0 <= k < |pages| && pages[k].id == id && Placement(pages[k], index) == slot;
        if k < n { assert pages[..n][k] == pages[k]; }
      }
      if id in Placed(pages[..n], index, slot) {
        var k :| 0 <= k < n && pages[..n][k].id == id && Placement(pages[..n][k], index) == slot;
        assert pages[k] == pages[..n][k];
      }
    }
  }

  /** The placement rule over the whole input: a page is a root exactly
      when its `parentId` is missing, empty, or names no page of the input;
      otherwise it sits under the page it names. */
  lemma PlacementRule(pages: seq<Page>, k: nat)
    requires k < |pages|
    ensures var p := pages[k];
            Placement(p, NodeIndex(pages)) ==
              if p.parentId.Some? && p.parentId.value != "" &&
                 exists j :: 0 <= j < |pages| && pages[j].id == p.parentId.value
              then Under(p.parentId.value) else Root
  {
    if pages[k].parentId.Some? {
      NodeIndexKeys(pages, pages[k].parentId.value);
    }
  }

  /** The ids of a page list, in list order. */
  function PageIds(pages: seq<Page>): (r: seq<string>)
    ensures |r| == |pages|
    ensures forall k :: 0 <= k < |pages| ==> r[k] == pages[k].id
  {
    seq(|pages|, k requires 0 <= k < |pages| => pages[k].id)
  }

  /** No two pages share an id. */
  ghost predicate DistinctIds(pages: seq<Page>)
  {
    Distinct(PageIds(pages))
  }

  /** No cycle check: with distinct ids, a page that names itself as
      parent becomes its own child and is not a root. */
  lemma SelfParentIsOwnChild(pages: seq<Page>, k: nat)
    requires k < |pages| && DistinctIds(pages)
    requires pages[k].id != "" && pages[k].parentId == Some(pages[k].id)
    ensures var index := NodeIndex(pages);
            pages[k].id in Placed(pages, index, Under(pages[k].id)) &&
            pages[k].id !in Placed(pages, index, Root)
  {
    var index := NodeIndex(pages);
    var id := pages[k].id;
    NodeIndexKeys(pages, id);
    PlacedMember(pages, index, Under(id), id);
    PlacedMember(pages, index, Root, id);
    forall j | 0 <= j < |pages| && pages[j].id == id ensures j == k {
      var ids := PageIds(pages);
      assert ids[j] == ids[k];
    }
  }

  /** Total number of child entries over the parents listed in `parents`. */
  function ChildEntries(pages: seq<Page>, index: map<string, Page>, parents: seq<string>): (r: nat)
  {
    if parents == [] then 0
    else |Placed(pages, index, Under(parents[0]))| + ChildEntries(pages, index, parents[1..])
  }

  ghost predicate Distinct(s: seq<string>)
  {
    forall j, k :: 0 <= j < k < |s| ==> s[j] != s[k]
  }

  lemma {:induction false} ChildEntriesStep(pages: seq<Page>, index: map<string, Page>, parents: seq<string>)
    requires pages != [] && Distinct(parents)
    ensures var n := |pages| - 1;
            var s := Placement(pages[n], index);
            ChildEntries(pages, index, parents) ==
              ChildEntries(pages[..n], index, parents) + (if s.Under? && s.parent in parents then 1 else 0)
  {
    if parents != [] {
      assert Distinct(parents[1..]) by {
        forall j, k | 0 <= j < k < |parents[1..]| ensures parents[1..][j] != parents[1..][k] {
          assert parents[1..][j] == parents[j + 1] && parents[1..][k] == parents[k + 1];
        }
      }
      ChildEntriesStep(pages, index, parents[1..]);
      var s := Placement(pages[|pages| - 1], index);
      if s.Under? && s.parent == parents[0] {
        assert s.parent !in parents[1..];
      }
    }
  }

  lemma {:induction false} NoChildEntries(index: map<string, Page>, parents: seq<string>)
    ensures ChildEntries([], index, parents) == 0
  {
    if parents != [] {
      NoChildEntries(index, parents[1..]);
    }
  }

  /** Every page is placed exactly once: the roots plus all child entries
      (summed over the distinct node ids) number as many as the pages. */
  lemma {:induction false} EveryPagePlacedOnce(pages: seq<Page>, index: map<string, Page>, parents: seq<string>)
    requires Distinct(parents) && index.Keys == set id | id in parents
    ensures |Placed(pages, index, Root)| + ChildEntries(pages, index, parents) == |pages|
    decreases |pages|
  {
    if pages != [] {
      var n := |pages| - 1;
      EveryPagePlacedOnce(pages[..n], index, parents);
      ChildEntriesStep(pages, index, parents);
      var s := Placement(pages[n], index);
      assert |Placed(pages, index, Root)| == |Placed(pages[..n], index, Root)| + (if s == Root then 1 else 0);
      if s.Under? {
        assert s.parent in index;
        assert s.parent in parents;
        assert ChildEntries(pages, index, parents) == ChildEntries(pages[..n], index, parents) + 1;
      } else {
        assert ChildEntries(pages, index, parents) == ChildEntries(pages[..n], index, parents);
      }
      assert |pages[..n]| + 1 == |pages|;
    } else {
      NoChildEntries(index, parents);
    }
  }

  /** With distinct page ids, the sum runs over the input ids themselves. */
  lemma BuildTreeCount(pages: seq<Page>)
    requires DistinctIds(pages)
    ensures var index := NodeIndex(pages);
            |Placed(pages, index, Root)| + ChildEntries(pages, index, PageIds(pages)) == |pages|
  {
    var index := NodeIndex(pages);
    var ids := PageIds(pages);
    forall id ensures id in index <==> id in ids {
      NodeIndexKeys(pages, id);
      if id in index {
        var k :| 0 <= k < |pages| && pages[k].id == id;
        assert ids[k] == id;
      }
    }
    EveryPagePlacedOnce(pages, index, ids);
  }
}
