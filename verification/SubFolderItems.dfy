/**
 * `convertDependencyNodeToSubFolderItem`: the "Dependencies" folder of a
 * project item. Each configuration of the project is converted on its own
 * walk: the map of first occurrences is emptied before every configuration,
 * so a " (*)" item only ever refers to an item of its own configuration.
 * The configuration called "default" is not shown.
 */
module SubFolderItems {
  import opened Wrappers
  import opened Collation
  import opened Proto
  import opened TreeItems
  import opened DependencyItems

  const DependenciesLabel := "Dependencies"
  const DefaultConfiguration := "default"

  /** The node of each of the first `i` children, in order, that gives an item. */
  function Configurations(n: DependencyNode, i: nat): (vs: seq<ItemView>)
    requires i <= |n.children|
    ensures |vs| <= i
  {
    if i == 0 then []
    else
      var prev := Configurations(n, i - 1);
      var c := n.children[i - 1];
      if c.name == DefaultConfiguration then prev
      else
        var r := Convert(c, map[]).0;
        if r.Some? then prev + [r.value] else prev
  }

  /** What the folder shows: nothing for a node without children, else its configurations sorted by label. */
  function DependenciesFolder(n: DependencyNode): Option<seq<ItemView>>
  {
    if |n.children| == 0 then None
    else Some(SortBy(Configurations(n, |n.children|), ViewLabel))
  }

  /**
   * Everything `v` reveals was recorded by the walk over `c` alone, under
   * the label of a dependency in `c`'s own tree.
   */
  ghost predicate SelfContained(v: ItemView, c: DependencyNode)
  {
    var m := Convert(c, map[]).1;
    && RevealsWithin(v, m)
    && forall k :: k in m ==> DependencyLabelIn(c, k)
  }

  /** Every item the folder lists is that of a child other than "default". */
  lemma {:induction false} ConfigurationsSound(n: DependencyNode, i: nat)
    requires i <= |n.children|
    ensures forall v :: v in Configurations(n, i) ==>
      exists j :: 0 <= j < i && n.children[j].name != DefaultConfiguration && Convert(n.children[j], map[]).0 == Some(v)
  {
    if i > 0 {
      ConfigurationsSound(n, i - 1);
      var prev := Configurations(n, i - 1);
      forall v | v in Configurations(n, i)
        ensures exists j :: 0 <= j < i && n.children[j].name != DefaultConfiguration && Convert(n.children[j], map[]).0 == Some(v)
      {
        if v in prev {
          var j :| 0 <= j < i - 1 && n.children[j].name != DefaultConfiguration && Convert(n.children[j], map[]).0 == Some(v);
          assert 0 <= j < i;
        } else {
          assert n.children[i - 1].name != DefaultConfiguration && Convert(n.children[i - 1], map[]).0 == Some(v);
        }
      }
    }
  }

  /** Every child other than "default" that gives an item has it listed. */
  lemma {:induction false} ConfigurationsComplete(n: DependencyNode, i: nat)
    requires i <= |n.children|
    ensures forall j :: 0 <= j < i && n.children[j].name != DefaultConfiguration && Convert(n.children[j], map[]).0.Some? ==>
      Convert(n.children[j], map[]).0.value in Configurations(n, i)
  {
    if i > 0 {
      ConfigurationsComplete(n, i - 1);
      var prev := Configurations(n, i - 1);
      assert forall v :: v in prev ==> v in Configurations(n, i);
    }
  }

  /**
   * A configuration's item is its full item, never a " (*)" reference (its
   * walk starts from an empty map), and it refers only within its own
   * configuration.
   */
  lemma ConfigurationItem(c: DependencyNode)
    requires Convert(c, map[]).0.Some?
    ensures var v := Convert(c, map[]).0.value;
      v.name == Label(c) && v.revealed.None? && SelfContained(v, c)
  {
    ConvertCases(c, map[]);
    ConvertReveals(c, map[]);
    ConvertExtends(c, map[]);
  }

  /** The folder is present exactly when the node has children, and lists its items sorted by label. */
  lemma FolderShape(n: DependencyNode)
    ensures DependenciesFolder(n).None? <==> |n.children| == 0
    ensures DependenciesFolder(n).Some? ==>
      && SortedBy(DependenciesFolder(n).value, ViewLabel)
      && multiset(DependenciesFolder(n).value) == multiset(Configurations(n, |n.children|))
      && |DependenciesFolder(n).value| <= |n.children|
  {
  }

  /** A project whose only configuration is "default" gets an empty folder, not none. */
  lemma OnlyDefault(n: DependencyNode)
    requires |n.children| == 1 && n.children[0].name == DefaultConfiguration
    ensures DependenciesFolder(n) == Some([])
  {
    assert Configurations(n, 0) == [];
  }

  /** `DependencyElem` around every item, in order. */
  function Elems(items: seq<DependencyItem>): (es: seq<Element>)
    ensures |es| == |items|
    ensures forall i :: 0 <= i < |items| ==> es[i] == DependencyElem(items[i])
  {
    if items == [] then [] else [DependencyElem(items[0])] + Elems(items[1..])
  }

  /**
   * `convertDependencyNodeToSubFolderItem(node, parent)`: `undefined` for a
   * node without children; otherwise a new collapsed "Dependencies" folder
   * whose children are new dependency items showing `DependenciesFolder`.
   */
  method ConvertDependencyNodeToSubFolderItem(node: DependencyNode, parent: Element)
    returns (r: Option<SubFolderItem>)
    ensures r.None? <==> DependenciesFolder(node).None?
    ensures r.Some? ==>
      && fresh(r.value)
      && r.value.name == DependenciesLabel && r.value.collapsibleState == Collapsed && r.value.parent == parent
      && r.value.children.Some?
      && |r.value.children.value| == |DependenciesFolder(node).value|
    ensures r.Some? ==> forall i :: 0 <= i < |r.value.children.value| ==>
      var e := r.value.children.value[i];
      && e.DependencyElem?
      && fresh(e.dependency)
      && e.dependency.parent == SubFolderElem(r.value)
      && e.dependency.view == DependenciesFolder(node).value[i]
      && e.dependency.Deep()
      && Shown(e.dependency) == DependenciesFolder(node).value[i]
  {
    var children := node.children;
    if |children| == 0 {
      return None;
    }
    var folder := new SubFolderItem(DependenciesLabel, Collapsed, parent);
    var childNodes, views := ConvertConfigurations(node, folder);
    SetConfigurationChildren(folder, childNodes, views);
    r := Some(folder);
    forall i | 0 <= i < |folder.children.value| ensures Shown(folder.children.value[i].dependency) == DependenciesFolder(node).value[i] {
      ShownIsView(folder.children.value[i].dependency);
    }
  }

  /** The loop over the configurations of `node`: the items of those that give one, in order. */
  method ConvertConfigurations(node: DependencyNode, folder: SubFolderItem)
    returns (childNodes: seq<DependencyItem>, ghost views: seq<ItemView>)
    ensures |childNodes| == |views| && views == Configurations(node, |node.children|)
    ensures forall j :: 0 <= j < |childNodes| ==> fresh(childNodes[j]) && childNodes[j].parent == SubFolderElem(folder)
    ensures forall j :: 0 <= j < |childNodes| ==> childNodes[j].view == views[j] && views[j].name == childNodes[j].name
    ensures forall j :: 0 <= j < |childNodes| ==> childNodes[j].Deep()
  {
    var children := node.children;
    childNodes, views := [], [];
    var itemMap := new DependencyItemMap();
    for i := 0 to |children|
      invariant |childNodes| == |views| && views == Configurations(node, i)
      invariant forall j :: 0 <= j < |childNodes| ==> fresh(childNodes[j]) && childNodes[j].parent == SubFolderElem(folder)
      invariant forall j :: 0 <= j < |childNodes| ==> childNodes[j].view == views[j] && views[j].name == childNodes[j].name
      invariant forall j :: 0 <= j < |childNodes| ==> childNodes[j].Deep()
    {
      childNodes, views := AddConfiguration(node, i, folder, itemMap, childNodes, views);
    }
  }

  /** `childNodes.sort(...)` and `subFolderItem.setChildren(childNodes)`. */
  method SetConfigurationChildren(folder: SubFolderItem, childNodes: seq<DependencyItem>, ghost views: seq<ItemView>)
    requires |childNodes| == |views|
    requires forall j :: 0 <= j < |childNodes| ==> childNodes[j].parent == SubFolderElem(folder)
    requires forall j :: 0 <= j < |childNodes| ==> childNodes[j].view == views[j] && views[j].name == childNodes[j].name
    requires forall j :: 0 <= j < |childNodes| ==> childNodes[j].Deep()
    modifies folder
    ensures folder.children.Some? && |folder.children.value| == |views|
    ensures forall i :: 0 <= i < |folder.children.value| ==>
      var e := folder.children.value[i];
      && e.DependencyElem?
      && e.dependency in childNodes
      && e.dependency.parent == SubFolderElem(folder)
      && e.dependency.view == SortBy(views, ViewLabel)[i]
      && e.dependency.Deep()
  {
    var sorted := SortChildNodes(childNodes, views);
    folder.SetChildren(Elems(sorted));
  }

  /** One turn of the loop over the configurations, appending the item it gives, if any. */
  method AddConfiguration(node: DependencyNode, i: nat, folder: SubFolderItem, itemMap: DependencyItemMap,
                          childNodes: seq<DependencyItem>, ghost views: seq<ItemView>)
    returns (childNodes': seq<DependencyItem>, ghost views': seq<ItemView>)
    requires i < |node.children| && views == Configurations(node, i)
    requires |childNodes| == |views|
    requires forall j :: 0 <= j < |childNodes| ==> childNodes[j].parent == SubFolderElem(folder)
    requires forall j :: 0 <= j < |childNodes| ==> childNodes[j].view == views[j] && views[j].name == childNodes[j].name
    requires forall j :: 0 <= j < |childNodes| ==> childNodes[j].Deep()
    modifies itemMap
    ensures views' == Configurations(node, i + 1)
    ensures |childNodes'| == |views'| && childNodes'[..|childNodes|] == childNodes
    ensures forall j :: |childNodes| <= j < |childNodes'| ==> fresh(childNodes'[j])
    ensures forall j :: 0 <= j < |childNodes'| ==> childNodes'[j].parent == SubFolderElem(folder)
    ensures forall j :: 0 <= j < |childNodes'| ==> childNodes'[j].view == views'[j] && views'[j].name == childNodes'[j].name
    ensures forall j :: 0 <= j < |childNodes'| ==> childNodes'[j].Deep()
  {
    var childItem := ConvertConfiguration(node.children[i], folder, itemMap);
    if childItem.Some? {
      childNodes', views' := childNodes + [childItem.value], views + [childItem.value.view];
    } else {
      childNodes', views' := childNodes, views;
    }
  }

  /**
   * One turn of the loop over the configurations: empties the map, skips
   * "default", and converts any other configuration on a fresh walk.
   */
  method ConvertConfiguration(child: DependencyNode, folder: SubFolderItem, itemMap: DependencyItemMap)
    returns (childItem: Option<DependencyItem>)
    modifies itemMap
    ensures childItem.None? <==> child.name == DefaultConfiguration || Convert(child, map[]).0.None?
    ensures childItem.Some? ==>
      && fresh(childItem.value)
      && Convert(child, map[]).0 == Some(childItem.value.view)
      && childItem.value.view.name == childItem.value.name
      && childItem.value.parent == SubFolderElem(folder)
      && childItem.value.Deep()
  {
    itemMap.Clear();
    if child.name == DefaultConfiguration {
      return None;
    }
    assert RecordedViews(itemMap.entries) == map[];
    ghost var built;
    childItem, built := ConvertDependencyNodeToDependencyItem(child, SubFolderElem(folder), itemMap, {}, {});
  }

  /** `childNodes.sort(...)` on the items of the folder, whose views are `views`. */
  method SortChildNodes(childNodes: seq<DependencyItem>, ghost views: seq<ItemView>)
    returns (sorted: seq<DependencyItem>)
    requires |childNodes| == |views|
    requires forall j :: 0 <= j < |childNodes| ==> childNodes[j].view == views[j] && childNodes[j].view.name == childNodes[j].name
    ensures |sorted| == |views|
    ensures forall j :: 0 <= j < |sorted| ==> sorted[j] in childNodes && sorted[j].view == SortBy(views, ViewLabel)[j]
  {
    sorted := SortBy(childNodes, DependencyLabel);
    assert Views(childNodes) == views;
    SortedViews(childNodes);
    SortByMembers(childNodes, DependencyLabel);
  }
}
