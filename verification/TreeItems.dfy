/**
 * The tree items both task views hand to the editor, and `Element`, the union
 * of them that a tree data provider's `getParent` and `getChildren` receive
 * (the source tells the kinds apart with `instanceof`).
 *
 * Labels, parents and collapsible states are fixed when an item is made; the
 * lists of children are the fields the builders change.
 */
module TreeItems {
  import opened Wrappers
  import opened Collation
  import opened TaskDefinitions

  /** `vscode.TreeItemCollapsibleState`. */
  datatype CollapsibleState = NotCollapsible | Collapsed | Expanded

  /** Which subclass of `TreeItemWithTasksOrGroups` an item is. */
  datatype ContainerKind = ProjectKind | GroupKind

  /** The context values a task item can carry (`GradleTaskTreeItem.STATE_*`). */
  const StateRunning := "runningTask"
  const StateStopping := "stoppingTask"
  const StateIdle := "task"

  /** Label of the item shown when there are no tasks. */
  const NoTasksLabel := "No tasks found"

  /**
   * `getTreeItemState`: a running task shows as running whatever else holds,
   * a stopping one as stopping, any other as idle.
   */
  function GetTreeItemState(task: Task): (s: string)
    ensures s == StateRunning <==> task.running
    ensures s == StateStopping <==> !task.running && task.stopping
    ensures s == StateIdle <==> !task.running && !task.stopping
  {
    if task.running then StateRunning
    else if task.stopping then StateStopping
    else StateIdle
  }

  /**
   * A task's tree item. It is never changed after it is made, so it is a
   * value; `parent` is the project or group item it is listed under.
   */
  datatype GradleTaskTreeItem = GradleTaskTreeItem(
    parent: TreeItemWithTasksOrGroups,
    task: Task,
    name: string,
    description: string)
  {
    /**
     * `description || name`: one of the two, the description whenever it is
     * set, and empty only when both are.
     */
    function Tooltip(): (t: string)
      ensures t == description || t == name
      ensures description != "" ==> t == description
      ensures t == "" <==> description == "" && name == ""
    {
      if description == "" then name else description
    }

    /** The context value set from the task's state when the item is made. */
    function ContextValue(): (v: string)
      ensures v in {StateRunning, StateStopping, StateIdle}
      ensures v == StateRunning <==> task.running
      ensures v == StateStopping <==> !task.running && task.stopping
      ensures v == StateIdle <==> !task.running && !task.stopping
    {
      GetTreeItemState(task)
    }
  }

  /** What a tree item is, as `getParent` and `getChildren` tell it apart. */
  datatype Element =
    | WorkspaceElem(workspace: WorkspaceTreeItem)
    | RootProjectElem(rootProject: RootProjectTreeItem)
    | ContainerElem(container: TreeItemWithTasksOrGroups)
    | TaskElem(taskItem: GradleTaskTreeItem)
    | NoTasksElem
    | DependencyElem(dependency: DependencyItem)
    | SubFolderElem(subFolder: SubFolderItem)
  {
    /** The item's name; every kind fixes it when the item is made. */
    function Label(): string
    {
      match this
      case WorkspaceElem(w) => w.name
      case RootProjectElem(r) => r.name
      case ContainerElem(c) => c.name
      case TaskElem(t) => t.name
      case NoTasksElem => NoTasksLabel
      case DependencyElem(d) => d.name
      case SubFolderElem(s) => s.name
    }
  }

  function TaskLabel(t: GradleTaskTreeItem): string { t.name }
  function ContainerLabel(c: TreeItemWithTasksOrGroups): string { c.name }
  function DependencyLabel(d: DependencyItem): string { d.name }

  /**
   * `TreeItemWithTasksOrGroups` with its two subclasses: a project item
   * (`ProjectTreeItem`, shown expanded) or a group item (`GroupTreeItem`,
   * shown collapsed). Both hold tasks and groups.
   */
  class TreeItemWithTasksOrGroups {
    const kind: ContainerKind
    const name: string
    const parent: Element
    const resourceUri: Option<string>
    var tasks: seq<GradleTaskTreeItem>
    var groups: seq<TreeItemWithTasksOrGroups>

    constructor Project(name: string, parent: Element, resourceUri: Option<string>)
      ensures kind == ProjectKind && this.name == name && this.parent == parent
      ensures this.resourceUri == resourceUri
      ensures tasks == [] && groups == []
    {
      kind := ProjectKind;
      this.name := name;
      this.parent := parent;
      this.resourceUri := resourceUri;
      tasks := [];
      groups := [];
    }

    constructor Group(name: string, parent: Element, resourceUri: Option<string>)
      ensures kind == GroupKind && this.name == name && this.parent == parent
      ensures this.resourceUri == resourceUri
      ensures tasks == [] && groups == []
    {
      kind := GroupKind;
      this.name := name;
      this.parent := parent;
      this.resourceUri := resourceUri;
      tasks := [];
      groups := [];
    }

    function CollapsibleState(): (s: CollapsibleState)
      ensures s == Expanded <==> kind == ProjectKind
      ensures s != NotCollapsible
    {
      if kind == ProjectKind then Expanded else Collapsed
    }

    method AddTask(task: GradleTaskTreeItem)
      modifies this
      ensures tasks == old(tasks) + [task]
      ensures groups == old(groups)
    {
      tasks := tasks + [task];
    }

    method AddGroup(group: TreeItemWithTasksOrGroups)
      modifies this
      ensures groups == old(groups) + [group]
      ensures tasks == old(tasks)
    {
      groups := groups + [group];
    }

    /** The `tasks` getter: sorts the stored tasks by name in place and returns them. */
    method Tasks() returns (r: seq<GradleTaskTreeItem>)
      modifies this
      ensures SortedBy(r, TaskLabel)
      ensures multiset(r) == multiset(old(tasks))
      ensures tasks == r && r == SortBy(old(tasks), TaskLabel)
      ensures groups == old(groups)
    {
      tasks := SortBy(tasks, TaskLabel);
      r := tasks;
    }

    /** The `groups` getter: sorts the stored groups by name in place and returns them. */
    method Groups() returns (r: seq<TreeItemWithTasksOrGroups>)
      modifies this
      ensures SortedBy(r, ContainerLabel)
      ensures multiset(r) == multiset(old(groups))
      ensures groups == r && r == SortBy(old(groups), ContainerLabel)
      ensures tasks == old(tasks)
    {
      groups := SortBy(groups, ContainerLabel);
      r := groups;
    }
  }

  /**
   * A folder of the older view: a workspace folder, or a project folder
   * nested in one, in which case `parent` is set to the folder it sits in.
   */
  class WorkspaceTreeItem {
    const name: string
    const resourceUri: string
    var projects: seq<TreeItemWithTasksOrGroups>
    var projectFolders: seq<WorkspaceTreeItem>
    var parent: Option<WorkspaceTreeItem>

    constructor(name: string, resourceUri: string)
      ensures this.name == name && this.resourceUri == resourceUri
      ensures projects == [] && projectFolders == [] && parent == None
    {
      this.name := name;
      this.resourceUri := resourceUri;
      projects := [];
      projectFolders := [];
      parent := None;
    }

    method AddProject(project: TreeItemWithTasksOrGroups)
      modifies this
      ensures projects == old(projects) + [project]
      ensures projectFolders == old(projectFolders) && parent == old(parent)
    {
      projects := projects + [project];
    }

    method AddProjectFolder(projectFolder: WorkspaceTreeItem)
      modifies this
      ensures projectFolders == old(projectFolders) + [projectFolder]
      ensures projects == old(projects) && parent == old(parent)
    {
      projectFolders := projectFolders + [projectFolder];
    }
  }

  /** The newer view's item for one root project folder; it has no parent. */
  class RootProjectTreeItem {
    const name: string
    const resourceUri: string
    var projects: seq<TreeItemWithTasksOrGroups>

    constructor(name: string, resourceUri: string)
      ensures this.name == name && this.resourceUri == resourceUri && projects == []
    {
      this.name := name;
      this.resourceUri := resourceUri;
      projects := [];
    }

    method AddProject(project: TreeItemWithTasksOrGroups)
      modifies this
      ensures projects == old(projects) + [project]
    {
      projects := projects + [project];
    }
  }

  /**
   * What a dependency item shows, as a value: its name, its state, its
   * children (absent until set) and the item its reveal command points to.
   */
  datatype ItemView = ItemView(
    name: string,
    state: CollapsibleState,
    children: ChildViews,
    revealed: Option<ItemView>)

  /** The children of a view: not set (`undefined`), or the list set. */
  datatype ChildViews = Unset | ChildList(views: seq<ItemView>)

  /**
   * `DependencyItem`. `revealTarget` is the argument of the item's
   * `gradle.TaskTreeView.revealed` command, when it has one; `view` records
   * what the item shows once it is complete.
   */
  class DependencyItem {
    const name: string
    const collapsibleState: CollapsibleState
    const parent: Element
    var children: Option<seq<DependencyItem>>
    var revealTarget: Option<DependencyItem>
    ghost var view: ItemView
    /** The item, the items below it and the items their reveal commands point at. */
    ghost var Repr: set<DependencyItem>

    constructor(name: string, collapsibleState: CollapsibleState, parent: Element)
      ensures this.name == name && this.collapsibleState == collapsibleState && this.parent == parent
      ensures children == None && revealTarget == None
    {
      this.name := name;
      this.collapsibleState := collapsibleState;
      this.parent := parent;
      children := None;
      revealTarget := None;
      view := ItemView(name, collapsibleState, Unset, None);
      Repr := {this};
    }

    method SetChildren(children: seq<DependencyItem>)
      modifies this
      ensures this.children == Some(children)
      ensures revealTarget == old(revealTarget) && view == old(view) && Repr == old(Repr)
    {
      this.children := Some(children);
    }

    function GetChildren(): Option<seq<DependencyItem>>
      reads this
    {
      children
    }

    /** The item's fields agree with `view`, one level deep. */
    ghost predicate Valid()
      reads this
      reads if children.Some? then set c | c in children.value else {}
      reads if revealTarget.Some? then {revealTarget.value} else {}
    {
      && view.name == name
      && view.state == collapsibleState
      && (children.Some? <==> view.children.ChildList?)
      && (children.Some? ==> Views(children.value) == view.children.views)
      && (revealTarget.Some? <==> view.revealed.Some?)
      && (revealTarget.Some? ==> revealTarget.value.view == view.revealed.value)
    }

    /**
     * `Valid` all the way down: for the item, every item below it and every
     * item a reveal command points at, each inside `Repr` and below the item.
     */
    ghost predicate Deep()
      reads this, Repr
      decreases Repr
    {
      && this in Repr
      && (children.Some? ==> forall c :: c in children.value ==>
            c in Repr && c.Repr <= Repr && this !in c.Repr && c.Deep())
      && (revealTarget.Some? ==>
            && revealTarget.value in Repr && revealTarget.value.Repr <= Repr
            && this !in revealTarget.value.Repr && revealTarget.value.Deep())
      && Valid()
    }
  }

  /** The views of `items`, in order. */
  ghost function Views(items: seq<DependencyItem>): (vs: seq<ItemView>)
    reads set d | d in items
    ensures |vs| == |items|
    ensures forall i :: 0 <= i < |items| ==> vs[i] == items[i].view
  {
    if items == [] then [] else Views(items[..|items| - 1]) + [items[|items| - 1].view]
  }

  /**
   * What the item `d` shows, read off the objects themselves: its fields, the
   * items in its `children` and the item its reveal command points at.
   */
  ghost function Shown(d: DependencyItem): (v: ItemView)
    requires d.Deep()
    reads d.Repr
    ensures v.name == d.name && v.state == d.collapsibleState
    decreases d.Repr, 1
  {
    ItemView(d.name, d.collapsibleState,
      if d.children.Some? then ChildList(ShownChildren(d, |d.children.value|)) else Unset,
      if d.revealTarget.Some? then Some(Shown(d.revealTarget.value)) else None)
  }

  /** What the first `i` children of `d` show, in order. */
  ghost function ShownChildren(d: DependencyItem, i: nat): (vs: seq<ItemView>)
    requires d.Deep() && d.children.Some? && i <= |d.children.value|
    reads d.Repr
    ensures |vs| == i
    decreases d.Repr, 0, i
  {
    if i == 0 then [] else ShownChildren(d, i - 1) + [Shown(d.children.value[i - 1])]
  }

  /**
   * The objects show exactly the item's `view`: a `Deep` item's fields,
   * children and reveal targets, read all the way down, are `view`.
   */
  lemma {:induction false} ShownIsView(d: DependencyItem)
    requires d.Deep()
    ensures Shown(d) == d.view
    decreases d.Repr, 1
  {
    if d.children.Some? {
      ShownChildrenAreViews(d, |d.children.value|);
    }
    if d.revealTarget.Some? {
      ShownIsView(d.revealTarget.value);
    }
  }

  lemma {:induction false} ShownChildrenAreViews(d: DependencyItem, i: nat)
    requires d.Deep() && d.children.Some? && i <= |d.children.value|
    ensures ShownChildren(d, i) == Views(d.children.value)[..i]
    decreases d.Repr, 0, i
  {
    if i > 0 {
      ShownChildrenAreViews(d, i - 1);
      ShownIsView(d.children.value[i - 1]);
      assert Views(d.children.value)[..i] == Views(d.children.value)[..i - 1] + [Views(d.children.value)[i - 1]];
    }
  }

  /**
   * `SubFolderItem`: the "Tasks" and "Dependencies" folders under a project
   * item of the newer view.
   */
  class SubFolderItem {
    const name: string
    const collapsibleState: CollapsibleState
    const parent: Element
    var children: Option<seq<Element>>

    constructor(name: string, collapsibleState: CollapsibleState, parent: Element)
      ensures this.name == name && this.collapsibleState == collapsibleState && this.parent == parent
      ensures children == None
    {
      this.name := name;
      this.collapsibleState := collapsibleState;
      this.parent := parent;
      children := None;
    }

    method SetChildren(children: seq<Element>)
      modifies this
      ensures this.children == Some(children)
    {
      this.children := Some(children);
    }

    function GetChildren(): Option<seq<Element>>
      reads this
    {
      children
    }
  }
}
