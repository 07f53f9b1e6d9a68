/**
 * The newer task view's tree data provider: the maps of items its file
 * keeps, the loop of `buildItemsTreeFromTasks` over the loaded tasks, and
 * the answers to the editor's `getChildren` and `getParent` queries.
 */
module TasksTreeDataProvider {
  import opened Wrappers
  import opened Collation
  import opened Proto
  import opened TaskDefinitions
  import opened TreeItems
  import opened SubFolderItems
  import opened TaskTreeSpec
  import opened TasksTreeProvider

  /** `Rep`, for a loop invariant (a quantifier over the one layout, opened only where needed). */
  ghost predicate Built(l: Layout, collapsed: bool, order: seq<string>, roots: map<string, RootProjectTreeItem>,
    projects: map<string, TreeItemWithTasksOrGroups>, groups: map<string, TreeItemWithTasksOrGroups>,
    items: map<string, GradleTaskTreeItem>, store: map<string, RootProject>, basename: string -> string)
    reads roots.Values, projects.Values, groups.Values
  {
    forall u | u == l :: Rep(u, collapsed, order, roots, projects, groups, items, store, basename)
  }

  /**
   * `tasks.forEach(...)` in `buildItemsTreeFromTasks`: every task is visited
   * in order, starting from the maps as they are; the maps end up holding
   * the layout `LayoutAfter` describes.
   */
  method PlaceTasks(tasks: seq<Task>, ghost l0: Layout, collapsed: bool, store: map<string, RootProject>, basename: string -> string,
    order0: seq<string>, roots0: map<string, RootProjectTreeItem>, projects0: map<string, TreeItemWithTasksOrGroups>,
    groups0: map<string, TreeItemWithTasksOrGroups>, items0: map<string, GradleTaskTreeItem>)
    returns (order: seq<string>, roots: map<string, RootProjectTreeItem>, projects: map<string, TreeItemWithTasksOrGroups>,
      groups: map<string, TreeItemWithTasksOrGroups>, items: map<string, GradleTaskTreeItem>)
    requires Built(l0, collapsed, order0, roots0, projects0, groups0, items0, store, basename)
    modifies roots0.Values, projects0.Values, groups0.Values
    ensures Built(LayoutAfter(l0, tasks, |tasks|, collapsed, store), collapsed, order, roots, projects, groups, items, store, basename)
  {
    order, roots, projects, groups, items := order0, roots0, projects0, groups0, items0;
    for i := 0 to |tasks|
      invariant forall k :: k in roots ==> (k in roots0 && roots[k] == roots0[k]) || fresh(roots[k])
      invariant forall k :: k in projects ==> (k in projects0 && projects[k] == projects0[k]) || fresh(projects[k])
      invariant forall k :: k in groups ==> (k in groups0 && groups[k] == groups0[k]) || fresh(groups[k])
      invariant Built(LayoutAfter(l0, tasks, i, collapsed, store), collapsed, order, roots, projects, groups, items, store, basename)
    {
      order, roots, projects, groups, items := VisitTask(tasks, i, l0, collapsed, store, basename, order, roots, projects, groups, items);
    }
  }

  /**
   * One turn of the loop: a task scoped to a workspace folder, that is a
   * Gradle task and whose folder the store knows is placed; any other is
   * skipped. Items already in the maps stay; the others are new.
   */
  method VisitTask(tasks: seq<Task>, i: nat, ghost l0: Layout, collapsed: bool, store: map<string, RootProject>, basename: string -> string,
    order: seq<string>, roots: map<string, RootProjectTreeItem>, projects: map<string, TreeItemWithTasksOrGroups>,
    groups: map<string, TreeItemWithTasksOrGroups>, items: map<string, GradleTaskTreeItem>)
    returns (order': seq<string>, roots': map<string, RootProjectTreeItem>, projects': map<string, TreeItemWithTasksOrGroups>,
      groups': map<string, TreeItemWithTasksOrGroups>, items': map<string, GradleTaskTreeItem>)
    requires i < |tasks|
    requires Built(LayoutAfter(l0, tasks, i, collapsed, store), collapsed, order, roots, projects, groups, items, store, basename)
    modifies RootOf(tasks[i], roots), ProjectOf(tasks[i], projects), GroupOf(tasks[i], groups)
    ensures forall k :: k in roots' ==> (k in roots && roots'[k] == roots[k]) || fresh(roots'[k])
    ensures forall k :: k in projects' ==> (k in projects && projects'[k] == projects[k]) || fresh(projects'[k])
    ensures forall k :: k in groups' ==> (k in groups && groups'[k] == groups[k]) || fresh(groups'[k])
    ensures Built(LayoutAfter(l0, tasks, i + 1, collapsed, store), collapsed, order', roots', projects', groups', items', store, basename)
  {
    var t := tasks[i];
    ghost var l := LayoutAfter(l0, tasks, i, collapsed, store);
    assert Rep(l, collapsed, order, roots, projects, groups, items, store, basename);
    if t.scope.WorkspaceFolder? && t.isGradleTask && FolderKey(t) in store {
      order', roots', projects', groups', items' := PlaceTask(t, l, collapsed, store, basename,
        order, roots, projects, groups, items);
    } else {
      order', roots', projects', groups', items' := order, roots, projects, groups, items;
    }
  }

  /** The root project map holds an item for exactly the folders of `order`. */
  lemma BuiltRoots(l: Layout, collapsed: bool, order: seq<string>, roots: map<string, RootProjectTreeItem>,
    projects: map<string, TreeItemWithTasksOrGroups>, groups: map<string, TreeItemWithTasksOrGroups>,
    items: map<string, GradleTaskTreeItem>, store: map<string, RootProject>, basename: string -> string)
    requires Built(l, collapsed, order, roots, projects, groups, items, store, basename)
    ensures forall f :: f in roots <==> f in order
  {
    assert Rep(l, collapsed, order, roots, projects, groups, items, store, basename);
  }

  /**
   * The four maps the provider's file keeps at module level: task items by
   * id, root project items by project folder, project items by build file
   * and group items by `group + project`. `rootOrder` is the order the root
   * project items were put in, which is the order a JavaScript `Map` lists
   * its values in. Clearing or refilling the maps replaces this object.
   */
  class TreeItemMaps {
    const taskItems: map<string, GradleTaskTreeItem>
    const rootItems: map<string, RootProjectTreeItem>
    const rootOrder: seq<string>
    const projectItems: map<string, TreeItemWithTasksOrGroups>
    const groupItems: map<string, TreeItemWithTasksOrGroups>

    /** `resetCachedTreeItems`: every map is cleared. */
    constructor Cleared()
      ensures Empty()
    {
      taskItems, rootItems, rootOrder, projectItems, groupItems := map[], map[], [], map[], map[];
    }

    /** The maps as `buildItemsTreeFromTasks` leaves them, holding the layout `l`. */
    constructor Filled(ghost l: Layout, ghost collapsed: bool, ghost store: map<string, RootProject>, ghost basename: string -> string,
      order: seq<string>, roots: map<string, RootProjectTreeItem>, projects: map<string, TreeItemWithTasksOrGroups>,
      groups: map<string, TreeItemWithTasksOrGroups>, tasks: map<string, GradleTaskTreeItem>)
      requires Built(l, collapsed, order, roots, projects, groups, tasks, store, basename)
      ensures rootOrder == order && rootItems == roots && projectItems == projects
      ensures groupItems == groups && taskItems == tasks
      ensures forall f :: f in rootItems <==> f in rootOrder
      ensures Holds(l, collapsed, store, basename)
    {
      rootOrder, rootItems, projectItems, groupItems, taskItems := order, roots, projects, groups, tasks;
      new;
      BuiltRoots(l, collapsed, order, roots, projects, groups, tasks, store, basename);
    }

    predicate Empty()
    {
      taskItems == map[] && rootItems == map[] && rootOrder == [] && projectItems == map[] && groupItems == map[]
    }

    /** The maps, and the items in them, hold the layout `l`. */
    ghost predicate Holds(l: Layout, collapsed: bool, store: map<string, RootProject>, basename: string -> string)
      reads rootItems.Values, projectItems.Values, groupItems.Values
    {
      Built(l, collapsed, rootOrder, rootItems, projectItems, groupItems, taskItems, store, basename)
    }

    /** The maps hold the layout of the accepted tasks `acc`. */
    ghost predicate HoldsTasks(acc: seq<Task>, collapsed: bool, store: map<string, RootProject>, basename: string -> string)
      reads rootItems.Values, projectItems.Values, groupItems.Values
    {
      forall l | l == LayoutOf(acc, collapsed) :: Holds(l, collapsed, store, basename)
    }
  }

  /** Cleared maps hold the layout of no tasks. */
  lemma ClearedHolds(m: TreeItemMaps, collapsed: bool, store: map<string, RootProject>, basename: string -> string)
    requires m.Empty()
    ensures m.HoldsTasks([], collapsed, store, basename)
  {
    EmptyRep(collapsed, store, basename);
    assert m.Holds(LayoutOf([], collapsed), collapsed, store, basename);
  }

  /**
   * What `buildItemsTreeFromTasks` answers from the root project map: the
   * project items of the root project item when there is exactly one,
   * otherwise every root project item, in the order they were made.
   */
  function TopLevel(order: seq<string>, roots: map<string, RootProjectTreeItem>): (r: seq<Element>)
    requires forall f :: f in roots <==> f in order
    reads roots.Values
  {
    if |roots| == 1 then ContainerElems(roots[order[0]].projects) else RootElems(InOrder(order, roots))
  }

  /** `buildItemsTreeFromTasks` up to its answer: the tasks are placed into the maps `m` and the maps replaced. */
  method Refill(tasks: seq<Task>, ghost prev: seq<Task>, collapsed: bool, store: map<string, RootProject>, basename: string -> string,
    m: TreeItemMaps) returns (m': TreeItemMaps)
    requires m.HoldsTasks(prev, collapsed, store, basename)
    modifies m.rootItems.Values, m.projectItems.Values, m.groupItems.Values
    ensures forall f :: f in m'.rootItems <==> f in m'.rootOrder
    ensures m'.HoldsTasks(prev + Accepted(tasks, store), collapsed, store, basename)
  {
    assert m.Holds(LayoutOf(prev, collapsed), collapsed, store, basename);
    var order, roots, projects, groups, items := PlaceTasks(tasks, LayoutOf(prev, collapsed), collapsed, store, basename,
      m.rootOrder, m.rootItems, m.projectItems, m.groupItems, m.taskItems);
    LayoutAfterAccepted(prev, tasks, |tasks|, collapsed, store);
    assert tasks[..|tasks|] == tasks;
    m' := new TreeItemMaps.Filled(LayoutOf(prev + Accepted(tasks, store), collapsed), collapsed, store, basename,
      order, roots, projects, groups, items);
  }

  /**
   * The "Dependencies" folders of every node named `name`, in the order of
   * `nodes`; a node without children gives none.
   */
  function DependencyFolders(nodes: seq<DependencyNode>, name: string): (fs: seq<seq<ItemView>>)
    ensures |fs| <= |nodes|
  {
    if nodes == [] then []
    else
      var prev := DependencyFolders(nodes[..|nodes| - 1], name);
      var n := nodes[|nodes| - 1];
      if n.name == name && DependenciesFolder(n).Some? then prev + [DependenciesFolder(n).value] else prev
  }

  /**
   * `getParent`: the item an item is listed under, for the kinds that keep
   * one; a root project item has none, and any other kind gives `null`.
   */
  function GetParent(e: Element): (p: Option<Element>)
    reads if e.ContainerElem? then {e.container} else {}
    reads if e.DependencyElem? then {e.dependency} else {}
    reads if e.SubFolderElem? then {e.subFolder} else {}
  {
    match e
    case ContainerElem(c) => Some(c.parent)
    case TaskElem(t) => Some(ContainerElem(t.parent))
    case DependencyElem(d) => Some(d.parent)
    case SubFolderElem(s) => Some(s.parent)
    case _ => None
  }

  /**
   * The provider of the task view. `collapsed` says whether tasks sit
   * directly under their project; `projectDependencyNodes` caches the
   * dependency reply of the server; `maps` are the maps of items the
   * provider's file keeps. The store of root projects and the `basename`
   * of paths are what the provider is given.
   */
  class GradleTasksTreeDataProvider {
    var collapsed: bool
    var projectDependencyNodes: Option<seq<DependencyNode>>
    var maps: TreeItemMaps
    const store: map<string, RootProject>
    const basename: string -> string

    /** `collapsed` starts as saved in the workspace state, `false` when nothing was saved. */
    constructor(store: map<string, RootProject>, basename: string -> string, saved: Option<bool>)
      ensures collapsed == saved.GetOr(false)
      ensures projectDependencyNodes.None? && maps.Empty()
      ensures this.store == store && this.basename == basename
    {
      this.store := store;
      this.basename := basename;
      projectDependencyNodes := None;
      maps := new TreeItemMaps.Cleared();
      new;
      SetCollapsed(saved.GetOr(false));
    }

    /** `setCollapsed`: only the flag changes; saving it and refreshing the view are left to the host. */
    method SetCollapsed(collapsed: bool)
      modifies this
      ensures this.collapsed == collapsed
      ensures projectDependencyNodes == old(projectDependencyNodes) && maps == old(maps)
    {
      this.collapsed := collapsed;
    }

    /** `resetCachedTreeItems`: every map is emptied. */
    method ResetCachedTreeItems()
      modifies this
      ensures maps.Empty()
      ensures collapsed == old(collapsed) && projectDependencyNodes == old(projectDependencyNodes)
    {
      maps := new TreeItemMaps.Cleared();
    }

    /**
     * `buildItemsTreeFromTasks`: the tasks are placed into the maps, which
     * held the layout of the tasks `prev` placed before, and the answer is
     * read from the root project map.
     */
    method BuildItemsTreeFromTasks(tasks: seq<Task>, ghost prev: seq<Task>) returns (r: seq<Element>)
      requires maps.HoldsTasks(prev, collapsed, store, basename)
      modifies this, maps.rootItems.Values, maps.projectItems.Values, maps.groupItems.Values
      ensures forall f :: f in maps.rootItems <==> f in maps.rootOrder
      ensures maps.HoldsTasks(prev + Accepted(tasks, store), collapsed, store, basename)
      ensures r == TopLevel(maps.rootOrder, maps.rootItems)
      ensures collapsed == old(collapsed) && projectDependencyNodes == old(projectDependencyNodes)
    {
      var m := Refill(tasks, prev, collapsed, store, basename, maps);
      r := TopLevel(m.rootOrder, m.rootItems);
      maps := m;
    }

    /**
     * `buildTreeItems` over the tasks `loaded` the task provider gives:
     * the maps are reset, and no tasks give the single "No tasks found" item.
     */
    method BuildTreeItems(loaded: seq<Task>) returns (r: seq<Element>)
      modifies this
      ensures forall f :: f in maps.rootItems <==> f in maps.rootOrder
      ensures maps.HoldsTasks(Accepted(loaded, store), collapsed, store, basename)
      ensures |loaded| == 0 ==> r == [NoTasksElem]
      ensures |loaded| != 0 ==> r == TopLevel(maps.rootOrder, maps.rootItems)
      ensures collapsed == old(collapsed) && projectDependencyNodes == old(projectDependencyNodes)
    {
      ResetCachedTreeItems();
      ClearedHolds(maps, collapsed, store, basename);
      if |loaded| == 0 {
        assert Accepted(loaded, store) == [];
        r := [NoTasksElem];
      } else {
        assert [] + Accepted(loaded, store) == Accepted(loaded, store);
        r := BuildItemsTreeFromTasks(loaded, []);
      }
    }

    /**
     * `getChildren` of a project item: a new collapsed "Tasks" folder
     * holding the project's groups and then its tasks, both sorted by the
     * getters that read them, and then the "Dependencies" folder of every
     * dependency node named after the project. The nodes are asked of the
     * server once (`reply`) and kept; no reply gives the "Tasks" folder alone.
     */
    method ProjectChildren(project: TreeItemWithTasksOrGroups, reply: Option<seq<DependencyNode>>) returns (r: seq<Element>)
      modifies this, project
      ensures project.groups == SortBy(old(project.groups), ContainerLabel)
      ensures project.tasks == SortBy(old(project.tasks), TaskLabel)
      ensures projectDependencyNodes == if old(projectDependencyNodes).Some? then old(projectDependencyNodes) else reply
      ensures 1 <= |r| && r[0].SubFolderElem? && fresh(r[0].subFolder)
      ensures TasksFolder(r[0], project)
      ensures projectDependencyNodes.None? ==> |r| == 1
      ensures projectDependencyNodes.Some? ==> ShowsFolders(r[1..], ContainerElem(project), DependencyFolders(projectDependencyNodes.value, project.name))
      ensures forall j :: 1 <= j < |r| ==> r[j].SubFolderElem? && fresh(r[j].subFolder)
      ensures collapsed == old(collapsed) && maps == old(maps)
    {
      var taskItem := new SubFolderItem(TasksLabel, Collapsed, ContainerElem(project));
      var groups := project.Groups();
      var tasks := project.Tasks();
      taskItem.SetChildren(ContainerElems(groups) + TaskElems(tasks));
      r := [SubFolderElem(taskItem)];
      if projectDependencyNodes.None? {
        if reply.None? {
          return;
        }
        projectDependencyNodes := reply;
      }
      var folders := DependencyFolderItems(projectDependencyNodes.value, project);
      r := r + folders;
    }

    /** `getChildren`: the children of `element`, or the top level of the tree when there is no element. */
    method GetChildren(element: Option<Element>, loaded: seq<Task>, reply: Option<seq<DependencyNode>>) returns (r: seq<Element>)
      modifies this, if element.Some? && element.value.ContainerElem? then {element.value.container} else {}
      ensures element.None? ==> && maps.HoldsTasks(Accepted(loaded, store), collapsed, store, basename)
                                && (|loaded| == 0 ==> r == [NoTasksElem])
                                && (|loaded| != 0 ==> TopLevelOf(maps, r))
      ensures element.Some? ==> maps == old(maps)
      ensures collapsed == old(collapsed)
      ensures element.Some? && element.value.ContainerElem? && element.value.container.kind == GroupKind ==>
        var c := element.value.container;
        c.tasks == SortBy(old(c.tasks), TaskLabel) && r == TaskElems(c.tasks)
      ensures element.Some? && element.value.ContainerElem? && element.value.container.kind == ProjectKind ==>
        var c := element.value.container;
        && c.groups == SortBy(old(c.groups), ContainerLabel)
        && c.tasks == SortBy(old(c.tasks), TaskLabel)
        && projectDependencyNodes == (if old(projectDependencyNodes).Some? then old(projectDependencyNodes) else reply)
        && 1 <= |r| && TasksFolder(r[0], c)
        && (projectDependencyNodes.None? ==> |r| == 1)
        && (projectDependencyNodes.Some? ==>
              ShowsFolders(r[1..], ContainerElem(c), DependencyFolders(projectDependencyNodes.value, c.name)))
      ensures !(element.Some? && element.value.ContainerElem? && element.value.container.kind == ProjectKind) ==>
        projectDependencyNodes == old(projectDependencyNodes)
      ensures element.Some? ==> match element.value
        case RootProjectElem(p) => r == ContainerElems(p.projects)
        case DependencyElem(d) => r == Elems(d.children.GetOr([]))
        case SubFolderElem(s) => r == s.children.GetOr([])
        case ContainerElem(_) => true
        case _ => r == []
    {
      if element.None? {
        r := BuildTreeItems(loaded);
        return;
      }
      match element.value
      case RootProjectElem(p) =>
        r := ContainerElems(p.projects);
      case ContainerElem(c) =>
        if c.kind == ProjectKind {
          r := ProjectChildren(c, reply);
        } else {
          var tasks := c.Tasks();
          r := TaskElems(tasks);
        }
      case DependencyElem(d) =>
        r := Elems(d.GetChildren().GetOr([]));
      case SubFolderElem(s) =>
        r := s.GetChildren().GetOr([]);
      case _ =>
        r := [];
    }
  }

  /** The maps answer `r` at the top level, as `buildItemsTreeFromTasks` reads it off the root project map. */
  ghost predicate TopLevelOf(m: TreeItemMaps, r: seq<Element>)
    reads m.rootItems.Values
  {
    (forall f :: f in m.rootItems <==> f in m.rootOrder) && r == TopLevel(m.rootOrder, m.rootItems)
  }

  /** `e` is the "Tasks" folder of `project`: collapsed, under the project, listing its groups and then its tasks. */
  ghost predicate TasksFolder(e: Element, project: TreeItemWithTasksOrGroups)
    reads if e.SubFolderElem? then {e.subFolder} else {}, project
  {
    && e.SubFolderElem?
    && e.subFolder.name == TasksLabel
    && e.subFolder.collapsibleState == Collapsed
    && e.subFolder.parent == ContainerElem(project)
    && e.subFolder.children == Some(ContainerElems(project.groups) + TaskElems(project.tasks))
  }

  /** The objects a "Dependencies" folder element and its children hold. */
  ghost function FolderObjects(e: Element): set<object>
    reads if e.SubFolderElem? then {e.subFolder} else {}
  {
    if e.SubFolderElem? && e.subFolder.children.Some? then
      {e.subFolder} + set c | c in e.subFolder.children.value && c.DependencyElem? :: c.dependency
    else if e.SubFolderElem? then {e.subFolder}
    else {}
  }

  /**
   * `e` is a collapsed "Dependencies" folder under `parent` whose children
   * are dependency items under it showing `views`, in order.
   */
  ghost predicate ShowsFolder(e: Element, parent: Element, views: seq<ItemView>)
    reads FolderObjects(e)
  {
    && e.SubFolderElem?
    && e.subFolder.name == DependenciesLabel
    && e.subFolder.collapsibleState == Collapsed
    && e.subFolder.parent == parent
    && e.subFolder.children.Some?
    && |e.subFolder.children.value| == |views|
    && forall i :: 0 <= i < |views| ==>
      && e.subFolder.children.value[i].DependencyElem?
      && e.subFolder.children.value[i].dependency.parent == e
      && e.subFolder.children.value[i].dependency.view == views[i]
  }

  /** Each of `es` shows the folder of the same place in `folders`. */
  ghost predicate ShowsFolders(es: seq<Element>, parent: Element, folders: seq<seq<ItemView>>)
    reads set e, o | e in es && o in FolderObjects(e) :: o
  {
    |es| == |folders| && forall j :: 0 <= j < |es| ==> ShowsFolder(es[j], parent, folders[j])
  }

  /** The loop of `getChildren` over the dependency nodes: the folder of each node named after the project. */
  method DependencyFolderItems(nodes: seq<DependencyNode>, project: TreeItemWithTasksOrGroups) returns (items: seq<Element>)
    ensures ShowsFolders(items, ContainerElem(project), DependencyFolders(nodes, project.name))
    ensures forall j :: 0 <= j < |items| ==> items[j].SubFolderElem? && fresh(items[j].subFolder)
  {
    items := [];
    for i := 0 to |nodes|
      invariant ShowsFolders(items, ContainerElem(project), DependencyFolders(nodes[..i], project.name))
      invariant forall j :: 0 <= j < |items| ==> items[j].SubFolderElem? && fresh(items[j].subFolder)
    {
      assert nodes[..i + 1][..i] == nodes[..i];
      if nodes[i].name == project.name {
        var item := ConvertDependencyNodeToSubFolderItem(nodes[i], ContainerElem(project));
        if item.Some? {
          items := items + [SubFolderElem(item.value)];
        }
      }
    }
    assert nodes[..|nodes|] == nodes;
  }
}
