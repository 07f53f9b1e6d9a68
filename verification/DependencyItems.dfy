/**
 * `convertDependencyNodeToDependencyItem`: turns a dependency tree received
 * from the Gradle server into dependency items. A label met a second time in
 * the same walk, on a node with children, is not expanded again: the item is
 * a leaf marked " (*)" whose reveal command points at the first item shown
 * with that label.
 *
 * `Convert` states what the walk produces as values; the method builds the
 * items and is proved to produce exactly that.
 */
module DependencyItems {
  import opened Wrappers
  import opened Collation
  import opened Proto
  import opened TreeItems

  const DependencyKind := "dependency"
  const ConfigurationKind := "configuration"
  const BackReferenceSuffix := " (*)"

  /** `group:id:version` for a dependency, the name for any other node. */
  function Label(n: DependencyNode): string
  {
    if n.kind == DependencyKind then n.group + ":" + n.id + ":" + n.version else n.name
  }

  function ViewLabel(v: ItemView): string { v.name }

  /**
   * What converting `n` produces, given the views already recorded by label
   * in `seen`: the item's view (None for `undefined`) and the map afterwards.
   */
  function Convert(n: DependencyNode, seen: map<string, ItemView>): (Option<ItemView>, map<string, ItemView>)
    decreases n, 2
  {
    if |n.children| == 0 && n.kind == ConfigurationKind then (None, seen)
    else if Label(n) in seen && |n.children| > 0 then
      (Some(ItemView(Label(n) + BackReferenceSuffix, NotCollapsible, Unset, Some(seen[Label(n)]))), seen)
    else
      var (item, seen') := Expand(n, seen);
      (Some(item), seen')
  }

  /**
   * The item for a node that is shown expanded: its label, collapsed when it
   * has children, its converted children sorted by label; a dependency label
   * not recorded yet is recorded with it.
   */
  function Expand(n: DependencyNode, seen: map<string, ItemView>): (ItemView, map<string, ItemView>)
    decreases n, 1
  {
    var (kids, seen') := ConvertChildren(n, |n.children|, seen);
    var state := if |n.children| > 0 then Collapsed else NotCollapsible;
    var item := ItemView(Label(n), state, ChildList(SortBy(kids, ViewLabel)), None);
    (item, if n.kind == DependencyKind && Label(n) !in seen' then seen'[Label(n) := item] else seen')
  }

  /** The views of the first `i` children of `n`, converted in order and threading `seen`, without the `undefined` ones. */
  function ConvertChildren(n: DependencyNode, i: nat, seen: map<string, ItemView>): (seq<ItemView>, map<string, ItemView>)
    requires i <= |n.children|
    decreases n, 0, i
  {
    if i == 0 then ([], seen)
    else
      var (kids, seen1) := ConvertChildren(n, i - 1, seen);
      var (r, seen2) := Convert(n.children[i - 1], seen1);
      (if r.Some? then kids + [r.value] else kids, seen2)
  }

  // ---------------------------------------------------------------------------
  // Properties of the conversion
  // ---------------------------------------------------------------------------

  /**
   * The cases of one conversion: an empty configuration is dropped; a label
   * already seen on a node with children gives a " (*)" leaf pointing at the
   * recorded item and leaves the map alone; anything else keeps its label and
   * is collapsed exactly when the node has children, with its converted
   * children sorted by label.
   */
  lemma ConvertCases(n: DependencyNode, seen: map<string, ItemView>)
    ensures Convert(n, seen).0.None? <==> |n.children| == 0 && n.kind == ConfigurationKind
    ensures Label(n) in seen && |n.children| > 0 ==>
      Convert(n, seen) == (Some(ItemView(Label(n) + BackReferenceSuffix, NotCollapsible, Unset, Some(seen[Label(n)]))), seen)
    ensures Convert(n, seen).0.Some? && !(Label(n) in seen && |n.children| > 0) ==>
      var v := Convert(n, seen).0.value;
      && v.name == Label(n)
      && (v.state == Collapsed <==> |n.children| > 0)
      && v.state != Expanded
      && v.children.ChildList? && SortedBy(v.children.views, ViewLabel)
      && v.revealed.None?
  {
  }

  /**
   * A dependency met again without children is shown again as a plain leaf,
   * not as a " (*)" reference.
   */
  lemma SeenLeafIsPlain(n: DependencyNode, seen: map<string, ItemView>)
    requires n.kind == DependencyKind && n.children == [] && Label(n) in seen
    ensures Convert(n, seen) == (Some(ItemView(Label(n), NotCollapsible, ChildList([]), None)), seen)
  {
    assert ConvertChildren(n, 0, seen) == ([], seen);
    assert SortBy([], ViewLabel) == [];
  }

  /** `seen2` keeps every entry of `seen1`. */
  ghost predicate Extends(seen2: map<string, ItemView>, seen1: map<string, ItemView>)
  {
    forall k :: k in seen1 ==> k in seen2 && seen2[k] == seen1[k]
  }

  /** Some dependency node of the tree `n` has label `k`. */
  ghost predicate DependencyLabelIn(n: DependencyNode, k: string)
  {
    || (n.kind == DependencyKind && Label(n) == k)
    || exists i :: 0 <= i < |n.children| && DependencyLabelIn(n.children[i], k)
  }

  /**
   * The map is only extended: no entry is ever replaced, so the first item
   * with a label is the one recorded, and every label added is that of a
   * dependency node of the tree (never of a configuration).
   */
  lemma {:induction false} ConvertExtends(n: DependencyNode, seen: map<string, ItemView>)
    ensures Extends(Convert(n, seen).1, seen)
    ensures forall k :: k in Convert(n, seen).1 && k !in seen ==> DependencyLabelIn(n, k)
    decreases n, 1
  {
    if !(|n.children| == 0 && n.kind == ConfigurationKind) && !(Label(n) in seen && |n.children| > 0) {
      ConvertChildrenExtends(n, |n.children|, seen);
    }
  }

  lemma {:induction false} ConvertChildrenExtends(n: DependencyNode, i: nat, seen: map<string, ItemView>)
    requires i <= |n.children|
    ensures Extends(ConvertChildren(n, i, seen).1, seen)
    ensures forall k :: k in ConvertChildren(n, i, seen).1 && k !in seen ==> DependencyLabelIn(n, k)
    decreases n, 0, i
  {
    if i > 0 {
      ConvertChildrenExtends(n, i - 1, seen);
      var seen1 := ConvertChildren(n, i - 1, seen).1;
      ConvertExtends(n.children[i - 1], seen1);
      forall k | k in ConvertChildren(n, i, seen).1 && k !in seen ensures DependencyLabelIn(n, k) {
        if k !in seen1 {
          assert DependencyLabelIn(n.children[i - 1], k);
        }
      }
    }
  }

  /**
   * The map records, under each label, an item shown with exactly that label
   * and without a reveal command.
   */
  ghost predicate Consistent(seen: map<string, ItemView>)
  {
    forall k :: k in seen ==> seen[k].name == k && seen[k].revealed.None?
  }

  /** A view is a " (*)" reference to an item recorded under its label without the marker. */
  ghost predicate WellFormedReference(v: ItemView)
  {
    v.revealed.Some? ==>
      && v.name == v.revealed.value.name + BackReferenceSuffix
      && v.revealed.value.revealed.None?
      && v.children.Unset?
  }

  /**
   * Consistency of the map survives a conversion, and a reveal command
   * always points at an item that carries the same label and is itself a
   * full item, not another reference.
   */
  lemma {:induction false} ConvertConsistent(n: DependencyNode, seen: map<string, ItemView>)
    requires Consistent(seen)
    ensures Consistent(Convert(n, seen).1)
    ensures Convert(n, seen).0.Some? ==> WellFormedReference(Convert(n, seen).0.value)
    decreases n, 1
  {
    if !(|n.children| == 0 && n.kind == ConfigurationKind) && !(Label(n) in seen && |n.children| > 0) {
      ConvertChildrenConsistent(n, |n.children|, seen);
    }
  }

  lemma {:induction false} ConvertChildrenConsistent(n: DependencyNode, i: nat, seen: map<string, ItemView>)
    requires i <= |n.children|
    requires Consistent(seen)
    ensures Consistent(ConvertChildren(n, i, seen).1)
    ensures forall v :: v in ConvertChildren(n, i, seen).0 ==> WellFormedReference(v)
    decreases n, 0, i
  {
    if i > 0 {
      ConvertChildrenConsistent(n, i - 1, seen);
      ConvertConsistent(n.children[i - 1], ConvertChildren(n, i - 1, seen).1);
    }
  }

  /**
   * Every reveal command in the tree of `v` points at the view `m` records
   * under the target's own label.
   */
  ghost predicate RevealsWithin(v: ItemView, m: map<string, ItemView>)
    decreases v
  {
    && (v.revealed.Some? ==> v.revealed.value.name in m && m[v.revealed.value.name] == v.revealed.value)
    && match v.children
       case Unset => true
       case ChildList(cs) => forall c :: c in cs ==> RevealsWithin(c, m)
  }

  lemma {:induction false} RevealsWithinExtends(v: ItemView, m: map<string, ItemView>, m': map<string, ItemView>)
    requires RevealsWithin(v, m) && Extends(m', m)
    ensures RevealsWithin(v, m')
    decreases v
  {
    match v.children
    case Unset =>
    case ChildList(cs) =>
      forall c | c in cs ensures RevealsWithin(c, m') {
        RevealsWithinExtends(c, m, m');
      }
  }

  /**
   * A walk's reveal commands only point at items the same walk has recorded
   * (or that were recorded before it): a " (*)" item never refers outside
   * the map it was built with.
   */
  lemma {:induction false} ConvertReveals(n: DependencyNode, seen: map<string, ItemView>)
    requires Consistent(seen)
    ensures Convert(n, seen).0.Some? ==> RevealsWithin(Convert(n, seen).0.value, Convert(n, seen).1)
    decreases n, 2
  {
    if !(|n.children| == 0 && n.kind == ConfigurationKind) && !(Label(n) in seen && |n.children| > 0) {
      ExpandReveals(n, seen);
    }
  }

  lemma {:induction false} ExpandReveals(n: DependencyNode, seen: map<string, ItemView>)
    requires Consistent(seen)
    ensures RevealsWithin(Expand(n, seen).0, Expand(n, seen).1)
    decreases n, 1
  {
    var (kids, seen') := ConvertChildren(n, |n.children|, seen);
    ChildrenReveals(n, |n.children|, seen);
    var (item, seen'') := Expand(n, seen);
    assert Extends(seen'', seen');
    var sorted := SortBy(kids, ViewLabel);
    forall c | c in sorted ensures RevealsWithin(c, seen'') {
      assert c in multiset(sorted);
      RevealsWithinExtends(c, seen', seen'');
    }
  }

  lemma {:induction false} ChildrenReveals(n: DependencyNode, i: nat, seen: map<string, ItemView>)
    requires i <= |n.children|
    requires Consistent(seen)
    ensures forall v :: v in ConvertChildren(n, i, seen).0 ==> RevealsWithin(v, ConvertChildren(n, i, seen).1)
    decreases n, 0, i
  {
    if i > 0 {
      var (kids, seen1) := ConvertChildren(n, i - 1, seen);
      ChildrenReveals(n, i - 1, seen);
      ConvertChildrenConsistent(n, i - 1, seen);
      ConvertReveals(n.children[i - 1], seen1);
      ConvertExtends(n.children[i - 1], seen1);
      var seen2 := Convert(n.children[i - 1], seen1).1;
      forall v | v in kids ensures RevealsWithin(v, seen2) {
        RevealsWithinExtends(v, seen1, seen2);
      }
    }
  }

  /** At most one item per child: `undefined` results are left out, nothing is added. */
  lemma {:induction false} ConvertChildrenCount(n: DependencyNode, i: nat, seen: map<string, ItemView>)
    requires i <= |n.children|
    ensures |ConvertChildren(n, i, seen).0| <= i
  {
    if i > 0 {
      ConvertChildrenCount(n, i - 1, seen);
    }
  }

  /** The children shown under a converted item are no more than the node's children. */
  lemma ConvertChildrenBound(n: DependencyNode, seen: map<string, ItemView>)
    requires Convert(n, seen).0.Some? && Convert(n, seen).0.value.children.ChildList?
    ensures |Convert(n, seen).0.value.children.views| <= |n.children|
  {
    ConvertChildrenCount(n, |n.children|, seen);
  }

  // ---------------------------------------------------------------------------
  // The conversion over items
  // ---------------------------------------------------------------------------

  /** The `Map<string, DependencyItem>` a walk records first occurrences in. */
  class DependencyItemMap {
    var entries: map<string, DependencyItem>

    constructor()
      ensures entries == map[]
    {
      entries := map[];
    }

    method Set(key: string, item: DependencyItem)
      modifies this
      ensures entries == old(entries)[key := item]
      ensures RecordedViews(entries) == old(RecordedViews(entries))[key := item.view]
    {
      ghost var entries0 := entries;
      entries := entries[key := item];
      forall k | k in entries ensures entries[k].view == old(RecordedViews(entries))[key := item.view][k] {
        if k != key {
          assert entries[k] == entries0[k];
        }
      }
    }

    method Clear()
      modifies this
      ensures entries == map[]
    {
      entries := map[];
    }
  }

  /** The views of the items recorded in `entries`, under the same labels. */
  ghost function RecordedViews(entries: map<string, DependencyItem>): (m: map<string, ItemView>)
    reads entries.Values
    ensures m.Keys == entries.Keys
    ensures forall k :: k in entries ==> m[k] == entries[k].view
  {
    map k | k in entries :: entries[k].view
  }

  function TagLabel(p: (DependencyItem, ItemView)): string { p.0.name }

  /** Each item paired with its view. */
  ghost function Tagged(items: seq<DependencyItem>): (t: seq<(DependencyItem, ItemView)>)
    reads set d | d in items
    ensures |t| == |items|
    ensures forall i :: 0 <= i < |items| ==> t[i] == (items[i], items[i].view)
    ensures forall p :: p in t ==> p.0 in items && p.1 == p.0.view
  {
    if items == [] then [] else Tagged(items[..|items| - 1]) + [(items[|items| - 1], items[|items| - 1].view)]
  }

  /** The items of pairs that agree with their views have those views. */
  lemma ViewsOfPairs(t: seq<(DependencyItem, ItemView)>)
    requires forall p :: p in t ==> p.1 == p.0.view
    ensures Views(MapSeq(t, PairFst)) == MapSeq(t, PairSnd)
  {
    var items := MapSeq(t, PairFst);
    forall j | 0 <= j < |t| ensures Views(items)[j] == MapSeq(t, PairSnd)[j] {
      assert t[j] in t;
    }
  }

  /** Sorting items by label and then taking their views is sorting their views by label. */
  lemma SortedViews(items: seq<DependencyItem>)
    requires forall d :: d in items ==> d.view.name == d.name
    ensures Views(SortBy(items, DependencyLabel)) == SortBy(Views(items), ViewLabel)
  {
    var tagged := Tagged(items);
    assert MapSeq(tagged, PairFst) == items;
    assert MapSeq(tagged, PairSnd) == Views(items);
    SortPairs(tagged, TagLabel, DependencyLabel, ViewLabel);
    ViewsOfPairs(SortBy(tagged, TagLabel));
  }

  /**
   * The items a walk has built or been handed: each is `Deep` and lies, with
   * everything below it, within `B`.
   */
  ghost predicate Closed(B: set<DependencyItem>)
    reads B
  {
    forall d :: d in B ==> d.Repr <= B && d.Deep()
  }

  /** Every item recorded in `entries` is one of `B`. */
  ghost predicate RecordedIn(entries: map<string, DependencyItem>, B: set<DependencyItem>)
  {
    forall k :: k in entries ==> entries[k] in B
  }

  /**
   * The " (*)" leaf for a label met again: not collapsible, no children, and
   * a reveal command whose argument is the item recorded for the label.
   */
  method NewReference(lbl: string, parent: Element, target: DependencyItem,
    ghost avoid: set<DependencyItem>, ghost B: set<DependencyItem>)
    returns (reference: DependencyItem, ghost B': set<DependencyItem>)
    requires Closed(B) && B !! avoid && target in B
    ensures fresh(reference) && reference.parent == parent
    ensures reference.view == ItemView(lbl + BackReferenceSuffix, NotCollapsible, Unset, Some(target.view))
    ensures B' == B + {reference} && Closed(B') && B' !! avoid
  {
    reference := new DependencyItem(lbl + BackReferenceSuffix, NotCollapsible, parent);
    reference.revealTarget := Some(target);
    reference.view := ItemView(lbl + BackReferenceSuffix, NotCollapsible, Unset, Some(target.view));
    reference.Repr := {reference} + target.Repr;
    B' := B + {reference};
    assert Closed(B);
    assert reference.Deep();
  }

  /** Stores `sorted` as the children of `item`, which then shows their views. */
  method InstallChildren(item: DependencyItem, sorted: seq<DependencyItem>, ghost B: set<DependencyItem>)
    requires item.revealTarget == None && item !in B && Closed(B)
    requires forall c :: c in sorted ==> c in B
    modifies item
    ensures item.children == Some(sorted)
    ensures item.view == ItemView(item.name, item.collapsibleState, ChildList(old(Views(sorted))), None)
    ensures item.Repr == {item} + B && Closed(B + {item})
  {
    ghost var vs := Views(sorted);
    item.SetChildren(sorted);
    item.view := ItemView(item.name, item.collapsibleState, ChildList(vs), None);
    item.Repr := {item} + B;
    assert Closed(B);
    assert item.Deep();
  }

  /**
   * The end of a conversion that expands its node: stores the children
   * sorted by label, which the item then shows.
   */
  method SetSortedChildren(item: DependencyItem, childItems: seq<DependencyItem>, ghost B: set<DependencyItem>)
    requires item.children == None && item.revealTarget == None && item !in B && Closed(B)
    requires forall c :: c in childItems ==> c in B && c.view.name == c.name && c.parent == DependencyElem(item)
    modifies item
    ensures item.children == Some(SortBy(childItems, DependencyLabel))
    ensures forall c :: c in item.children.value ==> c.parent == DependencyElem(item)
    ensures item.view == ItemView(item.name, item.collapsibleState, ChildList(SortBy(old(Views(childItems)), ViewLabel)), None)
    ensures item.Repr == {item} + B && Closed(B + {item})
  {
    var sorted := SortBy(childItems, DependencyLabel);
    SortedViews(childItems);
    SortByMembers(childItems, DependencyLabel);
    InstallChildren(item, sorted, B);
  }

  /** `SetSortedChildren` on an item not recorded in `itemMap`, which leaves the recorded views alone. */
  method SetSortedChildrenApart(item: DependencyItem, childItems: seq<DependencyItem>, itemMap: DependencyItemMap,
    ghost B: set<DependencyItem>)
    requires item.children == None && item.revealTarget == None && item !in B && Closed(B)
    requires forall c :: c in childItems ==> c in B && c.view.name == c.name && c.parent == DependencyElem(item)
    requires RecordedIn(itemMap.entries, B)
    modifies item
    ensures item.children == Some(SortBy(childItems, DependencyLabel))
    ensures forall c :: c in item.children.value ==> c.parent == DependencyElem(item)
    ensures item.view == ItemView(item.name, item.collapsibleState, ChildList(SortBy(old(Views(childItems)), ViewLabel)), None)
    ensures item.Repr == {item} + B && Closed(B + {item})
    ensures RecordedViews(itemMap.entries) == old(RecordedViews(itemMap.entries))
  {
    ghost var seen1 := RecordedViews(itemMap.entries);
    SetSortedChildren(item, childItems, B);
    forall k | k in itemMap.entries ensures itemMap.entries[k].view == seen1[k] {
      assert itemMap.entries[k] in B;
    }
  }

  /**
   * `convertDependencyNodeToDependencyItem(node, parent, itemMap)`: builds
   * the item for `node`, and below it the items for its children, recording
   * first occurrences of dependency labels in `itemMap`. What it builds and
   * records is exactly what `Convert` describes, read off the items all the
   * way down (`Shown`). `B` holds the items built before, `avoid` the items
   * still being built above this one.
   */
  method ConvertDependencyNodeToDependencyItem(node: DependencyNode, parent: Element, itemMap: DependencyItemMap,
    ghost avoid: set<DependencyItem>, ghost B: set<DependencyItem>)
    returns (r: Option<DependencyItem>, ghost B': set<DependencyItem>)
    requires Closed(B) && B !! avoid && RecordedIn(itemMap.entries, B)
    modifies itemMap
    ensures r.None? <==> Convert(node, old(RecordedViews(itemMap.entries))).0.None?
    ensures r.Some? ==> Convert(node, old(RecordedViews(itemMap.entries))).0 == Some(r.value.view)
    ensures RecordedViews(itemMap.entries) == Convert(node, old(RecordedViews(itemMap.entries))).1
    ensures r.Some? ==> fresh(r.value) && r.value.parent == parent && r.value.Deep() && r.value in B'
    ensures r.Some? ==> Convert(node, old(RecordedViews(itemMap.entries))).0 == Some(Shown(r.value))
    ensures r.Some? && r.value.children.Some? ==>
      forall c :: c in r.value.children.value ==> c.parent == DependencyElem(r.value)
    ensures forall k :: k in old(itemMap.entries) ==> k in itemMap.entries && itemMap.entries[k] == old(itemMap.entries[k])
    ensures B <= B' && Closed(B') && B' !! avoid && RecordedIn(itemMap.entries, B')
    decreases node, 3
  {
    B' := B;
    if |node.children| == 0 && node.kind == ConfigurationKind {
      return None, B';
    }
    var lbl := Label(node);
    if lbl in itemMap.entries && |node.children| > 0 {
      var reference;
      reference, B' := NewReference(lbl, parent, itemMap.entries[lbl], avoid, B);
      ShownIsView(reference);
      return Some(reference), B';
    }
    var item;
    item, B' := ExpandItem(node, parent, itemMap, avoid, B);
    ShownIsView(item);
    return Some(item), B';
  }

  /** The conversion of a node shown expanded: a new item with its converted children. */
  method ExpandItem(node: DependencyNode, parent: Element, itemMap: DependencyItemMap,
    ghost avoid: set<DependencyItem>, ghost B: set<DependencyItem>)
    returns (item: DependencyItem, ghost B': set<DependencyItem>)
    requires Closed(B) && B !! avoid && RecordedIn(itemMap.entries, B)
    modifies itemMap
    ensures (item.view, RecordedViews(itemMap.entries)) == Expand(node, old(RecordedViews(itemMap.entries)))
    ensures fresh(item) && item.parent == parent && item.Deep() && item in B'
    ensures item.children.Some? && forall c :: c in item.children.value ==> c.parent == DependencyElem(item)
    ensures forall k :: k in old(itemMap.entries) ==> k in itemMap.entries && itemMap.entries[k] == old(itemMap.entries[k])
    ensures B <= B' && Closed(B') && B' !! avoid && RecordedIn(itemMap.entries, B')
    decreases node, 2
  {
    item, B' := ExpandedItem(node, parent, itemMap, avoid, B);
    RecordFirst(itemMap, node.kind == DependencyKind, Label(node), item);
  }

  /** Records `item` under `lbl` when `record` holds and the label is not recorded yet. */
  method RecordFirst(itemMap: DependencyItemMap, record: bool, lbl: string, item: DependencyItem)
    modifies itemMap
    ensures itemMap.entries == if record && lbl !in old(itemMap.entries) then old(itemMap.entries)[lbl := item] else old(itemMap.entries)
    ensures RecordedViews(itemMap.entries) ==
      if record && lbl !in old(itemMap.entries) then old(RecordedViews(itemMap.entries))[lbl := item.view] else old(RecordedViews(itemMap.entries))
  {
    if record && lbl !in itemMap.entries {
      itemMap.Set(lbl, item);
    }
  }

  /** A new item for `node` with its children converted and installed, not yet recorded. */
  method ExpandedItem(node: DependencyNode, parent: Element, itemMap: DependencyItemMap,
    ghost avoid: set<DependencyItem>, ghost B: set<DependencyItem>)
    returns (item: DependencyItem, ghost B': set<DependencyItem>)
    requires Closed(B) && B !! avoid && RecordedIn(itemMap.entries, B)
    modifies itemMap
    ensures item.view == Expand(node, old(RecordedViews(itemMap.entries))).0
    ensures RecordedViews(itemMap.entries) == ConvertChildren(node, |node.children|, old(RecordedViews(itemMap.entries))).1
    ensures fresh(item) && item.parent == parent && item.Deep() && item in B'
    ensures item.children.Some? && forall c :: c in item.children.value ==> c.parent == DependencyElem(item)
    ensures forall k :: k in old(itemMap.entries) ==> k in itemMap.entries && itemMap.entries[k] == old(itemMap.entries[k])
    ensures B <= B' && Closed(B') && B' !! avoid && RecordedIn(itemMap.entries, B')
    decreases node, 1
  {
    var state := if |node.children| > 0 then Collapsed else NotCollapsible;
    item := new DependencyItem(Label(node), state, parent);
    var childItems;
    ghost var B1;
    childItems, B1 := ConvertChildItems(node, item, itemMap, avoid + {item}, B);
    SetSortedChildrenApart(item, childItems, itemMap, B1);
    B' := B1 + {item};
  }

  /**
   * The loop of the conversion over the children of `node`: converts each
   * with `item` as parent, in order, keeping the items that are not
   * `undefined`.
   */
  method ConvertChildItems(node: DependencyNode, item: DependencyItem, itemMap: DependencyItemMap,
    ghost avoid: set<DependencyItem>, ghost B: set<DependencyItem>)
    returns (childItems: seq<DependencyItem>, ghost B': set<DependencyItem>)
    requires Closed(B) && B !! avoid && RecordedIn(itemMap.entries, B)
    modifies itemMap
    ensures ConvertChildren(node, |node.children|, old(RecordedViews(itemMap.entries)))
      == (Views(childItems), RecordedViews(itemMap.entries))
    ensures forall c :: c in childItems ==> c in B' && c.view.name == c.name && c.parent == DependencyElem(item)
    ensures forall k :: k in old(itemMap.entries) ==> k in itemMap.entries && itemMap.entries[k] == old(itemMap.entries[k])
    ensures B <= B' && Closed(B') && B' !! avoid && RecordedIn(itemMap.entries, B')
    decreases node, 0
  {
    ghost var seen0 := RecordedViews(itemMap.entries);
    ghost var entries0 := itemMap.entries;
    var children := node.children;
    childItems, B' := [], B;
    ghost var kids: seq<ItemView> := [];
    var i := 0;
    while i < |children|
      invariant 0 <= i <= |children|
      invariant Kept(childItems, kids, B', item)
      invariant ConvertChildren(node, i, seen0) == (kids, RecordedViews(itemMap.entries))
      invariant forall k :: k in entries0 ==> k in itemMap.entries && itemMap.entries[k] == entries0[k]
      invariant B <= B' && Closed(B') && B' !! avoid && RecordedIn(itemMap.entries, B')
    {
      childItems, kids, B' := ConvertChild(node, i, seen0, entries0, item, itemMap, avoid, childItems, kids, B');
      i := i + 1;
    }
    assert Views(childItems) == kids;
    assert forall j :: 0 <= j < |childItems| ==> childItems[j] in B';
  }

  /**
   * The items kept so far are of `B`, are children of `item` showing their
   * own names, and show `kids`, in order.
   */
  ghost predicate Kept(items: seq<DependencyItem>, kids: seq<ItemView>, B: set<DependencyItem>, item: DependencyItem)
    reads set c | c in items
  {
    && |kids| == |items|
    && forall j :: 0 <= j < |items| ==>
         items[j] in B && items[j].view == kids[j] && kids[j].name == items[j].name && items[j].parent == DependencyElem(item)
  }

  /** One turn of the loop: converts child `i` of `node` and keeps its item, if any. */
  method ConvertChild(node: DependencyNode, i: nat, ghost seen0: map<string, ItemView>, ghost entries0: map<string, DependencyItem>,
    item: DependencyItem, itemMap: DependencyItemMap, ghost avoid: set<DependencyItem>,
    childItems: seq<DependencyItem>, ghost kids: seq<ItemView>, ghost B: set<DependencyItem>)
    returns (childItems': seq<DependencyItem>, ghost kids': seq<ItemView>, ghost B': set<DependencyItem>)
    requires i < |node.children|
    requires Closed(B) && B !! avoid && RecordedIn(itemMap.entries, B)
    requires Kept(childItems, kids, B, item)
    requires ConvertChildren(node, i, seen0) == (kids, RecordedViews(itemMap.entries))
    requires forall k :: k in entries0 ==> k in itemMap.entries && itemMap.entries[k] == entries0[k]
    modifies itemMap
    ensures Kept(childItems', kids', B', item)
    ensures ConvertChildren(node, i + 1, seen0) == (kids', RecordedViews(itemMap.entries))
    ensures forall k :: k in entries0 ==> k in itemMap.entries && itemMap.entries[k] == entries0[k]
    ensures B <= B' && Closed(B') && B' !! avoid && RecordedIn(itemMap.entries, B')
    decreases node, 0, i
  {
    var childItem;
    childItem, B' := ConvertDependencyNodeToDependencyItem(node.children[i], DependencyElem(item), itemMap, avoid, B);
    if childItem.Some? {
      ConvertCases(node.children[i], old(RecordedViews(itemMap.entries)));
      childItems', kids' := childItems + [childItem.value], kids + [childItem.value.view];
    } else {
      childItems', kids' := childItems, kids;
    }
  }
}
