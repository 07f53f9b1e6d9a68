/**
 * The older task view's provider (`GradleTasksTreeDataProvider` of
 * `gradleView.ts`): it keeps the tasks last fetched and the top level of the
 * tree built from them, which every event that changes what the view shows
 * throws away, and it answers `getParent` and `getChildren` from the items.
 */
module GradleViewProvider {
  import opened Wrappers
  import opened Collation
  import opened TaskDefinitions
  import opened TreeItems
  import opened TasksTreeProvider
  import opened GradleView

  /**
   * `getParent`: a folder item's parent folder (none for a workspace
   * folder), a project or group item's folder item, a task item's project
   * or group item; any other item has none.
   */
  function GetParent(e: Element): (p: Option<Element>)
    reads if e.WorkspaceElem? then {e.workspace} else {}
    ensures p.Some? ==> e.WorkspaceElem? || e.ContainerElem? || e.TaskElem?
    ensures e.TaskElem? ==> p.Some? && p.value.ContainerElem?
  {
    match e
    case WorkspaceElem(w) => if w.parent.Some? then Some(WorkspaceElem(w.parent.value)) else None
    case ContainerElem(c) => Some(c.parent)
    case TaskElem(t) => Some(ContainerElem(t.parent))
    case _ => None
  }

  /**
   * The provider. `taskItems` are the tasks last fetched, `taskTree` the top
   * level built from them (`None` until it is asked for), and `collapsed`
   * whether tasks sit directly under their project.
   */
  class GradleTasksTreeDataProvider {
    var taskItems: seq<Task>
    var taskTree: Option<seq<Element>>
    var collapsed: bool

    /** No tasks and no tree; the flag is set as `setCollapsed` sets it. */
    constructor(collapsed: bool)
      ensures this.collapsed == collapsed
      ensures taskItems == [] && taskTree.None?
    {
      taskItems := [];
      taskTree := None;
      this.collapsed := collapsed;
      new;
      SetCollapsed(collapsed);
    }

    /** `setCollapsed`: the flag changes and the tree is rendered again; saving the flag is left to the host. */
    method SetCollapsed(collapsed: bool)
      modifies this
      ensures this.collapsed == collapsed
      ensures taskTree.None? && taskItems == old(taskItems)
    {
      this.collapsed := collapsed;
      Render();
    }

    /** `onTaskStatusChange`: a task started or ended, so the tree is built again when next asked for. */
    method OnTaskStatusChange()
      modifies this
      ensures taskTree.None?
      ensures taskItems == old(taskItems) && collapsed == old(collapsed)
    {
      taskTree := None;
    }

    /** `refresh`, given the tasks `fetched` that the host's task fetch answers. */
    method Refresh(fetched: seq<Task>)
      modifies this
      ensures taskItems == fetched && taskTree.None?
      ensures collapsed == old(collapsed)
    {
      taskItems := fetched;
      Render();
    }

    /** `render`: the tree is thrown away; telling the view is left to the host. */
    method Render()
      modifies this
      ensures taskTree.None?
      ensures taskItems == old(taskItems) && collapsed == old(collapsed)
    {
      taskTree := None;
    }

    /**
     * The first statement of `getChildren`: a kept tree is kept; otherwise no
     * tasks give the single "No tasks" item and any tasks give the tree
     * `buildTaskTree` builds, from the maps `order` … `groups` it fills.
     */
    method EnsureTaskTree()
      returns (ghost order: seq<string>, ghost ws: map<string, WorkspaceTreeItem>,
        ghost nested: map<string, WorkspaceTreeItem>, ghost projects: map<string, TreeItemWithTasksOrGroups>,
        ghost groups: map<string, TreeItemWithTasksOrGroups>)
      modifies this
      ensures taskTree.Some?
      ensures old(taskTree).Some? ==> taskTree == old(taskTree)
      ensures old(taskTree).None? && taskItems == [] ==> taskTree == Some([NoTasksElem])
      ensures old(taskTree).None? && taskItems != [] ==>
        BuiltTree(taskTree.value, taskItems, collapsed, order, ws, nested, projects, groups)
      ensures taskItems == old(taskItems) && collapsed == old(collapsed)
    {
      order, ws, nested, projects, groups := [], map[], map[], map[], map[];
      if taskTree.None? {
        if |taskItems| == 0 {
          taskTree := Some([NoTasksElem]);
        } else {
          var r;
          r, order, ws, nested, projects, groups := BuildTaskTree(taskItems, collapsed);
          taskTree := Some(r);
        }
      }
    }

    /**
     * `getChildren`: a folder item's nested folders and then its projects; a
     * project item's groups and then its tasks, each list sorted in place by
     * the getter that reads it; a group item's tasks, sorted in place; the
     * tree's top level when there is no element; nothing for any other item.
     */
    method GetChildren(element: Option<Element>)
      returns (r: seq<Element>, ghost order: seq<string>, ghost ws: map<string, WorkspaceTreeItem>,
        ghost nested: map<string, WorkspaceTreeItem>, ghost projects: map<string, TreeItemWithTasksOrGroups>,
        ghost groups: map<string, TreeItemWithTasksOrGroups>)
      modifies this, if element.Some? && element.value.ContainerElem? then {element.value.container} else {}
      ensures taskTree.Some? && taskItems == old(taskItems) && collapsed == old(collapsed)
      ensures old(taskTree).Some? ==> taskTree == old(taskTree)
      ensures old(taskTree).None? && taskItems == [] ==> taskTree == Some([NoTasksElem])
      ensures old(taskTree).None? && taskItems != [] ==>
        BuiltTree(taskTree.value, taskItems, collapsed, order, ws, nested, projects, groups)
      ensures element.None? ==> r == taskTree.value
      ensures element.None? && old(taskTree).None? && taskItems == [] ==> r == [NoTasksElem]
      ensures element.None? && old(taskTree).None? && taskItems != [] ==>
        BuiltTree(r, taskItems, collapsed, order, ws, nested, projects, groups)
      ensures element.Some? && element.value.ContainerElem? && element.value.container.kind == ProjectKind ==>
        var c := element.value.container;
        && c.groups == SortBy(old(c.groups), ContainerLabel)
        && c.tasks == SortBy(old(c.tasks), TaskLabel)
        && r == ContainerElems(c.groups) + TaskElems(c.tasks)
      ensures element.Some? && element.value.ContainerElem? && element.value.container.kind == GroupKind ==>
        var c := element.value.container;
        && c.groups == old(c.groups)
        && c.tasks == SortBy(old(c.tasks), TaskLabel)
        && r == TaskElems(c.tasks)
      ensures element.Some? && element.value.WorkspaceElem? ==>
        r == WorkspaceElems(element.value.workspace.projectFolders) + ContainerElems(element.value.workspace.projects)
      ensures element.Some? && !element.value.WorkspaceElem? && !element.value.ContainerElem? ==> r == []
    {
      // The rebuild only makes new items and the answer only sorts the given
      // item's lists, so answering first leaves the state the source leaves.
      if element.Some? {
        r := ElementChildren(element.value);
      }
      order, ws, nested, projects, groups := EnsureTaskTree();
      if element.None? {
        r := taskTree.value;
      }
    }
  }

  /**
   * What `getChildren` answers for a given item: a folder item's nested
   * folders and then its projects; a project item's groups and then its
   * tasks, each list sorted in place by the getter that reads it; a group
   * item's tasks, sorted in place; nothing for any other item.
   */
  method ElementChildren(e: Element) returns (r: seq<Element>)
    modifies if e.ContainerElem? then {e.container} else {}
    ensures e.ContainerElem? && e.container.kind == ProjectKind ==>
      var c := e.container;
      && c.groups == SortBy(old(c.groups), ContainerLabel)
      && c.tasks == SortBy(old(c.tasks), TaskLabel)
      && r == ContainerElems(c.groups) + TaskElems(c.tasks)
    ensures e.ContainerElem? && e.container.kind == GroupKind ==>
      var c := e.container;
      && c.groups == old(c.groups)
      && c.tasks == SortBy(old(c.tasks), TaskLabel)
      && r == TaskElems(c.tasks)
    ensures e.WorkspaceElem? ==> r == WorkspaceElems(e.workspace.projectFolders) + ContainerElems(e.workspace.projects)
    ensures !e.WorkspaceElem? && !e.ContainerElem? ==> r == []
  {
    match e
    case WorkspaceElem(w) =>
      r := WorkspaceElems(w.projectFolders) + ContainerElems(w.projects);
    case ContainerElem(c) =>
      if c.kind == ProjectKind {
        var gs := c.Groups();
        var ts := c.Tasks();
        r := ContainerElems(gs) + TaskElems(ts);
      } else {
        var ts := c.Tasks();
        r := TaskElems(ts);
      }
    case _ =>
      r := [];
  }
}
