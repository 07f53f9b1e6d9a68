/**
 * The older task view's `buildTaskTree`: a loop over the loaded tasks that
 * fills four local maps of items (workspace folders by scope name, nested
 * project folders by relative path, projects by project key, groups by
 * `group + project`) and links the items it makes into lists.
 *
 * The loop is proved to keep its maps, and the lists of the items in them,
 * exactly as `ViewOf` describes the tasks placed so far; the lemmas of
 * `GradleViewSpec` say what that layout is.
 *
 * A few predicates write their body as `(…) == true` or as
 * `forall u | u == x :: …`. Either form means the body; it only keeps the
 * verifier from opening the body where a proof does not need it.
 */
module GradleView {
  import opened Wrappers
  import opened Collation
  import opened TaskDefinitions
  import opened TreeItems
  import opened TaskTreeSpec
  import opened TasksTreeProvider
  import opened GradleViewSpec

  /** The item made for task `t` under `parent`: labelled as the view shows it, described by the task's description. */
  function ViewItemOf(parent: TreeItemWithTasksOrGroups, t: Task, collapsed: bool): GradleTaskTreeItem
  {
    GradleTaskTreeItem(parent, t, ItemLabel(t, collapsed), t.definition.description)
  }

  /** `items` are the items made for the tasks `ts` under `parent`, in order. */
  ghost predicate ListsItems(items: seq<GradleTaskTreeItem>, parent: TreeItemWithTasksOrGroups, ts: seq<Task>, collapsed: bool)
  {
    |items| == |ts| && forall i :: 0 <= i < |ts| ==> items[i] == ViewItemOf(parent, ts[i], collapsed)
  }

  lemma ListsItemsSnoc(items: seq<GradleTaskTreeItem>, parent: TreeItemWithTasksOrGroups, ts: seq<Task>, t: Task, collapsed: bool)
    requires ListsItems(items, parent, ts, collapsed)
    ensures ListsItems(items + [ViewItemOf(parent, t, collapsed)], parent, ts + [t], collapsed)
  {
  }

  function WorkspaceElems(ws: seq<WorkspaceTreeItem>): (es: seq<Element>)
    ensures |es| == |ws| && forall i :: 0 <= i < |ws| ==> es[i] == WorkspaceElem(ws[i])
  {
    if ws == [] then [] else [WorkspaceElem(ws[0])] + WorkspaceElems(ws[1..])
  }

  /** The folder item the task's project goes in: its nested folder's when it nests, its workspace's otherwise. */
  ghost predicate FolderKnown(t: Task, ws: map<string, WorkspaceTreeItem>, nested: map<string, WorkspaceTreeItem>)
  {
    if Nests(t) then RelativePath(t) in nested else ScopeName(t) in ws
  }

  ghost function FolderItem(t: Task, ws: map<string, WorkspaceTreeItem>, nested: map<string, WorkspaceTreeItem>): WorkspaceTreeItem
    requires FolderKnown(t, ws, nested)
  {
    if Nests(t) then nested[RelativePath(t)] else ws[ScopeName(t)]
  }

  /** The folder items `m'` holds under keys that `m` lacks. */
  ghost function NewFolders(m: map<string, WorkspaceTreeItem>, m': map<string, WorkspaceTreeItem>): set<WorkspaceTreeItem>
  {
    set k | k in m' && k !in m :: m'[k]
  }

  /** The project or group items `m'` holds under keys that `m` lacks. */
  ghost function NewItems(m: map<string, TreeItemWithTasksOrGroups>, m': map<string, TreeItemWithTasksOrGroups>): set<TreeItemWithTasksOrGroups>
  {
    set k | k in m' && k !in m :: m'[k]
  }

  /** A map grown by one key holds one new folder item: the one added. */
  lemma NewFoldersAdd(m: map<string, WorkspaceTreeItem>, k: string, v: WorkspaceTreeItem)
    requires k !in m
    ensures NewFolders(m, m[k := v]) == {v}
  {
    assert v in NewFolders(m, m[k := v]);
  }

  /** A map grown by one key holds one new project or group item: the one added. */
  lemma NewItemsAdd(m: map<string, TreeItemWithTasksOrGroups>, k: string, v: TreeItemWithTasksOrGroups)
    requires k !in m
    ensures NewItems(m, m[k := v]) == {v}
  {
    assert v in NewItems(m, m[k := v]);
  }

  /** Every entry of `m'` under a key `m` lacks is a new folder item. */
  lemma NewFoldersCover(m: map<string, WorkspaceTreeItem>, m': map<string, WorkspaceTreeItem>)
    ensures forall k :: k in m' && k !in m ==> m'[k] in NewFolders(m, m')
  {
  }

  /** Every entry of `m'` under a key `m` lacks is a new project or group item. */
  lemma NewItemsCover(m: map<string, TreeItemWithTasksOrGroups>, m': map<string, TreeItemWithTasksOrGroups>)
    ensures forall k :: k in m' && k !in m ==> m'[k] in NewItems(m, m')
  {
  }

  /** An unchanged map holds no new folder item. */
  lemma NewFoldersSame(m: map<string, WorkspaceTreeItem>)
    ensures NewFolders(m, m) == {}
  {
  }

  /** An unchanged map holds no new project or group item. */
  lemma NewItemsSame(m: map<string, TreeItemWithTasksOrGroups>)
    ensures NewItems(m, m) == {}
  {
  }

  /** No item is both a workspace folder item and a nested folder item. */
  ghost predicate Apart(ws: map<string, WorkspaceTreeItem>, nested: map<string, WorkspaceTreeItem>)
  {
    forall a, b :: a in ws && b in nested ==> ws[a] != nested[b]
  }

  /** `folder` is the folder item the task's project is listed under. */
  ghost predicate TaskFolder(t: Task, ws: map<string, WorkspaceTreeItem>, nested: map<string, WorkspaceTreeItem>,
    folder: WorkspaceTreeItem)
  {
    (FolderKnown(t, ws, nested) && folder == FolderItem(t, ws, nested)) == true
  }

  /** `project` is the project item of the task's project key. */
  ghost predicate ProjectItemIs(t: Task, collapsed: bool, projects: map<string, TreeItemWithTasksOrGroups>,
    project: TreeItemWithTasksOrGroups)
  {
    (KeyOf(t, collapsed) in projects && project == projects[KeyOf(t, collapsed)]) == true
  }

  /** The folder item of a task, spelt out by whether its project nests. */
  lemma TaskFolderIs(t: Task, ws: map<string, WorkspaceTreeItem>, nested: map<string, WorkspaceTreeItem>,
    folder: WorkspaceTreeItem)
    requires if Nests(t) then RelativePath(t) in nested && folder == nested[RelativePath(t)]
      else ScopeName(t) in ws && folder == ws[ScopeName(t)]
    ensures TaskFolder(t, ws, nested, folder)
  {
  }

  /** `parent` is the item the task's item goes in: its project item when collapsed, its group item otherwise. */
  ghost predicate TaskParent(t: Task, collapsed: bool, projects: map<string, TreeItemWithTasksOrGroups>,
    groups: map<string, TreeItemWithTasksOrGroups>, parent: TreeItemWithTasksOrGroups)
  {
    (if collapsed then KeyOf(t, collapsed) in projects && parent == projects[KeyOf(t, collapsed)]
     else GroupKey(t) in groups && parent == groups[GroupKey(t)]) == true
  }

  /** The workspace folder items are those listed in `order`, each named after its scope and pointing at its folder. */
  ghost predicate FoldersShape(order: seq<string>, tf: map<string, Task>, ws: map<string, WorkspaceTreeItem>)
  {
    && (forall w :: w in ws <==> w in order)
    && ws.Keys == tf.Keys
    && forall w :: w in ws ==> ws[w].name == w && ws[w].resourceUri == ScopeUri(tf[w])
  }

  /** Each workspace folder item has no parent and lists the nested folders of `tfo` and the projects of `tp`, in order. */
  ghost predicate FoldersContent(tfo: map<string, seq<string>>, tp: map<string, seq<string>>,
    ws: map<string, WorkspaceTreeItem>, nested: map<string, WorkspaceTreeItem>, projects: map<string, TreeItemWithTasksOrGroups>)
    reads ws.Values
  {
    && ws.Keys == tfo.Keys
    && ws.Keys == tp.Keys
    && forall w :: w in ws ==>
         ws[w].parent == None && Lists(ws[w].projectFolders, nested, tfo[w]) && Lists(ws[w].projects, projects, tp[w])
  }

  /**
   * The nested folder items are those of `nf`, each named after its relative
   * path, pointing at the project folder of its first task and under the
   * workspace folder item of that task; they list no folders.
   */
  ghost predicate NestedShape(nf: map<string, Task>, ws: map<string, WorkspaceTreeItem>, nested: map<string, WorkspaceTreeItem>)
    reads nested.Values
  {
    && nested.Keys == nf.Keys
    && forall p :: p in nested ==>
         && nested[p].name == p
         && nested[p].resourceUri == nf[p].definition.projectFolder
         && ScopeName(nf[p]) in ws
         && nested[p].parent == Some(ws[ScopeName(nf[p])])
         && nested[p].projectFolders == []
  }

  /** Each nested folder item lists the projects of `np`, in order. */
  ghost predicate NestedContent(np: map<string, seq<string>>, nested: map<string, WorkspaceTreeItem>,
    projects: map<string, TreeItemWithTasksOrGroups>)
    reads nested.Values
  {
    && nested.Keys == np.Keys
    && forall p :: p in nested ==> Lists(nested[p].projects, projects, np[p])
  }

  /** The project items are those of `pf`, each named after its key, pointing at the build file of its first task and under that task's folder item. */
  ghost predicate ProjectItemsShape(pf: map<string, Task>, ws: map<string, WorkspaceTreeItem>,
    nested: map<string, WorkspaceTreeItem>, projects: map<string, TreeItemWithTasksOrGroups>)
  {
    && projects.Keys == pf.Keys
    && forall k :: k in projects ==>
         && projects[k].kind == ProjectKind
         && projects[k].name == k
         && projects[k].resourceUri == Some(pf[k].definition.buildFile)
         && FolderKnown(pf[k], ws, nested)
         && projects[k].parent == WorkspaceElem(FolderItem(pf[k], ws, nested))
  }

  /** Each project item lists the groups of `pg` and the items of the tasks of `pt`, in order. */
  ghost predicate ProjectItemsContent(pg: map<string, seq<string>>, pt: map<string, seq<Task>>, collapsed: bool,
    projects: map<string, TreeItemWithTasksOrGroups>, groups: map<string, TreeItemWithTasksOrGroups>)
    reads projects.Values
  {
    && pg.Keys == projects.Keys
    && pt.Keys == projects.Keys
    && forall k :: k in projects ==>
         Lists(projects[k].groups, groups, pg[k]) && ListsItems(projects[k].tasks, projects[k], pt[k], collapsed)
  }

  /**
   * The group items are those of `gf`, each named after the group of its
   * first task and under that task's folder item (not its project item).
   */
  ghost predicate GroupItemsShape(gf: map<string, Task>, ws: map<string, WorkspaceTreeItem>,
    nested: map<string, WorkspaceTreeItem>, groups: map<string, TreeItemWithTasksOrGroups>)
  {
    && groups.Keys == gf.Keys
    && Injective(groups)
    && forall g :: g in groups ==>
         && groups[g].kind == GroupKind
         && groups[g].name == gf[g].definition.group
         && groups[g].resourceUri == None
         && FolderKnown(gf[g], ws, nested)
         && groups[g].parent == WorkspaceElem(FolderItem(gf[g], ws, nested))
  }

  /** Each group item lists the items of the tasks of `gt`, in order, and no groups. */
  ghost predicate GroupItemsContent(gt: map<string, seq<Task>>, collapsed: bool, groups: map<string, TreeItemWithTasksOrGroups>)
    reads groups.Values
  {
    && gt.Keys == groups.Keys
    && forall g :: g in groups ==> groups[g].groups == [] && ListsItems(groups[g].tasks, groups[g], gt[g], collapsed)
  }
  /** The folder items hold the folder half of the layout `l`. */
  ghost predicate FolderRep(l: ViewLayout, order: seq<string>, ws: map<string, WorkspaceTreeItem>,
    nested: map<string, WorkspaceTreeItem>, projects: map<string, TreeItemWithTasksOrGroups>)
    reads ws.Values, nested.Values
  {
    FolderParts(l, order, ws, nested, projects) == true
  }

  ghost predicate FolderParts(l: ViewLayout, order: seq<string>, ws: map<string, WorkspaceTreeItem>,
    nested: map<string, WorkspaceTreeItem>, projects: map<string, TreeItemWithTasksOrGroups>)
    reads ws.Values, nested.Values
  {
    && order == l.topOrder
    && FoldersShape(order, l.topFirst, ws)
    && Apart(ws, nested)
    && FoldersContent(l.topFolders, l.topProjects, ws, nested, projects)
    && NestedShape(l.nestedFirst, ws, nested)
    && NestedContent(l.nestedProjects, nested, projects)
  }

  /** The project and group items hold the other half of the layout `l`. */
  ghost predicate ItemRep(l: ViewLayout, collapsed: bool, ws: map<string, WorkspaceTreeItem>,
    nested: map<string, WorkspaceTreeItem>, projects: map<string, TreeItemWithTasksOrGroups>,
    groups: map<string, TreeItemWithTasksOrGroups>)
    reads projects.Values, groups.Values
  {
    ItemParts(l, collapsed, ws, nested, projects, groups) == true
  }

  ghost predicate ItemParts(l: ViewLayout, collapsed: bool, ws: map<string, WorkspaceTreeItem>,
    nested: map<string, WorkspaceTreeItem>, projects: map<string, TreeItemWithTasksOrGroups>,
    groups: map<string, TreeItemWithTasksOrGroups>)
    reads projects.Values, groups.Values
  {
    && ProjectItemsShape(l.projectFirst, ws, nested, projects)
    && ProjectItemsContent(l.projectGroups, l.projectTasks, collapsed, projects, groups)
    && GroupItemsShape(l.groupFirst, ws, nested, groups)
    && GroupItemsContent(l.groupTasks, collapsed, groups)
  }

  /** The four maps of items, and the items in them, hold the layout `l`. */
  ghost predicate ViewRep(l: ViewLayout, collapsed: bool, order: seq<string>, ws: map<string, WorkspaceTreeItem>,
    nested: map<string, WorkspaceTreeItem>, projects: map<string, TreeItemWithTasksOrGroups>,
    groups: map<string, TreeItemWithTasksOrGroups>)
    reads ws.Values, nested.Values, projects.Values, groups.Values
  {
    FolderRep(l, order, ws, nested, projects) && ItemRep(l, collapsed, ws, nested, projects, groups)
  }

  /** `ViewRep`, for a loop invariant. */
  ghost predicate ViewBuilt(l: ViewLayout, collapsed: bool, order: seq<string>, ws: map<string, WorkspaceTreeItem>,
    nested: map<string, WorkspaceTreeItem>, projects: map<string, TreeItemWithTasksOrGroups>,
    groups: map<string, TreeItemWithTasksOrGroups>)
    reads ws.Values, nested.Values, projects.Values, groups.Values
  {
    forall u | u == l :: ViewRep(u, collapsed, order, ws, nested, projects, groups)
  }

  // ---------------------------------------------------------------------------
  // The layout part way through a turn of the loop
  // ---------------------------------------------------------------------------

  /** A workspace folder item is made for the task's scope unless there is one. */
  ghost function WorkspaceStage(l: ViewLayout, t: Task): ViewLayout
  {
    var w := ScopeName(t);
    if w in l.topFirst then l
    else ViewLayout(l.topOrder + [w], l.topFirst[w := t], l.topFolders[w := []], l.nestedFirst,
      l.topProjects[w := []], l.nestedProjects, l.projectFirst, l.projectGroups, l.projectTasks,
      l.groupFirst, l.groupTasks)
  }

  /** A nested folder item is made for a nesting task's relative path unless there is one. */
  ghost function NestedStage(l: ViewLayout, t: Task): ViewLayout
  {
    var p := RelativePath(t);
    if !MakesNested(l, t) then l
    else ViewLayout(l.topOrder, l.topFirst, Append(l.topFolders, ScopeName(t), p), l.nestedFirst[p := t],
      l.topProjects, l.nestedProjects[p := []], l.projectFirst, l.projectGroups, l.projectTasks,
      l.groupFirst, l.groupTasks)
  }

  /** A project item is made for the task's project key unless there is one, and added to its folder item. */
  ghost function ProjectStage(l: ViewLayout, t: Task, collapsed: bool): ViewLayout
  {
    var k := KeyOf(t, collapsed);
    if k in l.projectFirst then l
    else ViewLayout(l.topOrder, l.topFirst, l.topFolders, l.nestedFirst,
      if Nests(t) then l.topProjects else Append(l.topProjects, ScopeName(t), k),
      if Nests(t) then Append(l.nestedProjects, RelativePath(t), k) else l.nestedProjects,
      l.projectFirst[k := t], l.projectGroups[k := []], l.projectTasks[k := []],
      l.groupFirst, l.groupTasks)
  }

  /** In an expanded view a group item is made for the task's group key unless there is one, and added to its project item. */
  ghost function GroupStage(l: ViewLayout, t: Task, collapsed: bool): ViewLayout
  {
    var g := GroupKey(t);
    if !MakesGroup(l, t, collapsed) then l
    else ViewLayout(l.topOrder, l.topFirst, l.topFolders, l.nestedFirst, l.topProjects, l.nestedProjects,
      l.projectFirst, Append(l.projectGroups, KeyOf(t, collapsed), g), l.projectTasks,
      l.groupFirst[g := t], l.groupTasks[g := []])
  }

  /** The task's item goes to its project item in a collapsed view, to its group item otherwise. */
  ghost function TaskStage(l: ViewLayout, t: Task, collapsed: bool): ViewLayout
  {
    if collapsed then
      ViewLayout(l.topOrder, l.topFirst, l.topFolders, l.nestedFirst, l.topProjects, l.nestedProjects,
        l.projectFirst, l.projectGroups, Append(l.projectTasks, KeyOf(t, collapsed), t), l.groupFirst, l.groupTasks)
    else
      ViewLayout(l.topOrder, l.topFirst, l.topFolders, l.nestedFirst, l.topProjects, l.nestedProjects,
        l.projectFirst, l.projectGroups, l.projectTasks, l.groupFirst, Append(l.groupTasks, GroupKey(t), t))
  }

  /** The five stages, one after the other. */
  ghost function Stages(l: ViewLayout, t: Task, collapsed: bool): ViewLayout
  {
    TaskStage(GroupStage(ProjectStage(NestedStage(WorkspaceStage(l, t), t), t, collapsed), t, collapsed), t, collapsed)
  }

  lemma WorkspaceStageFields(l: ViewLayout, t: Task)
    ensures var l1 := WorkspaceStage(l, t);
      && l1.topOrder == TopOrderAfter(l, t) && l1.topFirst == TopFirstAfter(l, t)
      && l1.topFolders == TopFoldersWithTop(l, t) && l1.topProjects == TopProjectsWithTop(l, t)
      && l1.nestedFirst == l.nestedFirst && l1.nestedProjects == l.nestedProjects
      && l1.projectFirst == l.projectFirst && l1.projectGroups == l.projectGroups && l1.projectTasks == l.projectTasks
      && l1.groupFirst == l.groupFirst && l1.groupTasks == l.groupTasks
  {
    if ScopeName(t) in l.topFirst {
      assert WorkspaceStage(l, t) == l;
    }
  }

  lemma NestedStageFields(l: ViewLayout, l1: ViewLayout, t: Task)
    requires l1.topFolders == TopFoldersWithTop(l, t) && l1.nestedFirst == l.nestedFirst
    requires l1.nestedProjects == l.nestedProjects
    ensures var l2 := NestedStage(l1, t);
      && l2.topOrder == l1.topOrder && l2.topFirst == l1.topFirst
      && l2.topFolders == TopFoldersAfter(l, t) && l2.topProjects == l1.topProjects
      && l2.nestedFirst == NestedFirstAfter(l, t) && l2.nestedProjects == NestedProjectsWithNested(l, t)
      && l2.projectFirst == l1.projectFirst && l2.projectGroups == l1.projectGroups && l2.projectTasks == l1.projectTasks
      && l2.groupFirst == l1.groupFirst && l2.groupTasks == l1.groupTasks
  {
    if !(MakesNested(l1, t)) {
      assert NestedStage(l1, t) == l1;
    }
  }

  lemma ProjectStageFields(l: ViewLayout, l2: ViewLayout, t: Task, collapsed: bool)
    requires l2.topProjects == TopProjectsWithTop(l, t) && l2.nestedProjects == NestedProjectsWithNested(l, t)
    requires l2.projectFirst == l.projectFirst && l2.projectGroups == l.projectGroups && l2.projectTasks == l.projectTasks
    ensures var l3 := ProjectStage(l2, t, collapsed);
      && l3.topOrder == l2.topOrder && l3.topFirst == l2.topFirst
      && l3.topFolders == l2.topFolders && l3.topProjects == TopProjectsAfter(l, t, collapsed)
      && l3.nestedFirst == l2.nestedFirst && l3.nestedProjects == NestedProjectsAfter(l, t, collapsed)
      && l3.projectFirst == ProjectFirstAfter(l, t, collapsed)
      && l3.projectGroups == ProjectGroupsWithProject(l, t, collapsed)
      && l3.projectTasks == ProjectTasksWithProject(l, t, collapsed)
      && l3.groupFirst == l2.groupFirst && l3.groupTasks == l2.groupTasks
  {
    if !(KeyOf(t, collapsed) !in l2.projectFirst) {
      assert ProjectStage(l2, t, collapsed) == l2;
    }
  }

  lemma GroupStageFields(l: ViewLayout, l3: ViewLayout, t: Task, collapsed: bool)
    requires l3.projectGroups == ProjectGroupsWithProject(l, t, collapsed)
    requires l3.groupFirst == l.groupFirst && l3.groupTasks == l.groupTasks
    ensures var l4 := GroupStage(l3, t, collapsed);
      && l4.topOrder == l3.topOrder && l4.topFirst == l3.topFirst
      && l4.topFolders == l3.topFolders && l4.topProjects == l3.topProjects
      && l4.nestedFirst == l3.nestedFirst && l4.nestedProjects == l3.nestedProjects
      && l4.projectFirst == l3.projectFirst && l4.projectGroups == ProjectGroupsAfter(l, t, collapsed)
      && l4.projectTasks == l3.projectTasks
      && l4.groupFirst == GroupFirstAfter(l, t, collapsed) && l4.groupTasks == GroupTasksWithGroup(l, t, collapsed)
  {
    if !(MakesGroup(l3, t, collapsed)) {
      assert GroupStage(l3, t, collapsed) == l3;
    }
  }

  lemma TaskStageFields(l: ViewLayout, l4: ViewLayout, t: Task, collapsed: bool)
    requires l4.projectTasks == ProjectTasksWithProject(l, t, collapsed)
    requires l4.groupTasks == GroupTasksWithGroup(l, t, collapsed)
    ensures var l5 := TaskStage(l4, t, collapsed);
      && l5.topOrder == l4.topOrder && l5.topFirst == l4.topFirst
      && l5.topFolders == l4.topFolders && l5.topProjects == l4.topProjects
      && l5.nestedFirst == l4.nestedFirst && l5.nestedProjects == l4.nestedProjects
      && l5.projectFirst == l4.projectFirst && l5.projectGroups == l4.projectGroups
      && l5.projectTasks == ProjectTasksAfter(l, t, collapsed)
      && l5.groupFirst == l4.groupFirst && l5.groupTasks == GroupTasksAfter(l, t, collapsed)
  {
  }

  /** The five stages, one after the other, are one turn of the loop. */
  lemma StagesTurn(l: ViewLayout, t: Task, collapsed: bool)
    ensures Stages(l, t, collapsed) == Turn(l, t, collapsed)
  {
    var l1 := WorkspaceStage(l, t);
    WorkspaceStageFields(l, t);
    var l2 := NestedStage(l1, t);
    NestedStageFields(l, l1, t);
    var l3 := ProjectStage(l2, t, collapsed);
    ProjectStageFields(l, l2, t, collapsed);
    var l4 := GroupStage(l3, t, collapsed);
    GroupStageFields(l, l3, t, collapsed);
    TaskStageFields(l, l4, t, collapsed);
  }

  // ---------------------------------------------------------------------------
  // The workspace folder item
  // ---------------------------------------------------------------------------

  lemma FoldersShapeAdd(order: seq<string>, tf: map<string, Task>, ws: map<string, WorkspaceTreeItem>,
    t: Task, folder: WorkspaceTreeItem)
    requires FoldersShape(order, tf, ws) && ScopeName(t) !in ws
    requires folder.name == ScopeName(t) && folder.resourceUri == ScopeUri(t)
    ensures FoldersShape(order + [ScopeName(t)], tf[ScopeName(t) := t], ws[ScopeName(t) := folder])
  {
  }

  lemma FoldersContentAdd(tfo: map<string, seq<string>>, tp: map<string, seq<string>>,
    ws: map<string, WorkspaceTreeItem>, nested: map<string, WorkspaceTreeItem>, projects: map<string, TreeItemWithTasksOrGroups>,
    w: string, folder: WorkspaceTreeItem)
    requires FoldersContent(tfo, tp, ws, nested, projects) && w !in ws
    requires folder.parent == None && folder.projectFolders == [] && folder.projects == []
    ensures FoldersContent(tfo[w := []], tp[w := []], ws[w := folder], nested, projects)
  {
  }

  lemma NestedShapeWorkspacesExtend(nf: map<string, Task>, ws: map<string, WorkspaceTreeItem>,
    ws': map<string, WorkspaceTreeItem>, nested: map<string, WorkspaceTreeItem>)
    requires NestedShape(nf, ws, nested) && Extends(ws, ws')
    ensures NestedShape(nf, ws', nested)
  {
  }

  lemma FolderItemExtend(t: Task, ws: map<string, WorkspaceTreeItem>, ws': map<string, WorkspaceTreeItem>,
    nested: map<string, WorkspaceTreeItem>, nested': map<string, WorkspaceTreeItem>)
    requires FolderKnown(t, ws, nested) && Extends(ws, ws') && Extends(nested, nested')
    ensures FolderKnown(t, ws', nested') && FolderItem(t, ws', nested') == FolderItem(t, ws, nested)
  {
  }

  lemma ProjectItemsShapeExtend(pf: map<string, Task>, ws: map<string, WorkspaceTreeItem>, ws': map<string, WorkspaceTreeItem>,
    nested: map<string, WorkspaceTreeItem>, nested': map<string, WorkspaceTreeItem>, projects: map<string, TreeItemWithTasksOrGroups>)
    requires ProjectItemsShape(pf, ws, nested, projects) && Extends(ws, ws') && Extends(nested, nested')
    ensures ProjectItemsShape(pf, ws', nested', projects)
  {
    forall k | k in projects
      ensures FolderKnown(pf[k], ws', nested') && FolderItem(pf[k], ws', nested') == FolderItem(pf[k], ws, nested)
    {
      FolderItemExtend(pf[k], ws, ws', nested, nested');
    }
  }

  lemma GroupItemsShapeExtend(gf: map<string, Task>, ws: map<string, WorkspaceTreeItem>, ws': map<string, WorkspaceTreeItem>,
    nested: map<string, WorkspaceTreeItem>, nested': map<string, WorkspaceTreeItem>, groups: map<string, TreeItemWithTasksOrGroups>)
    requires GroupItemsShape(gf, ws, nested, groups) && Extends(ws, ws') && Extends(nested, nested')
    ensures GroupItemsShape(gf, ws', nested', groups)
  {
    forall g | g in groups
      ensures FolderKnown(gf[g], ws', nested') && FolderItem(gf[g], ws', nested') == FolderItem(gf[g], ws, nested)
    {
      FolderItemExtend(gf[g], ws, ws', nested, nested');
    }
  }

  /** The project and group items keep their parents when the folder maps only gain entries. */
  lemma ItemRepFoldersExtend(l: ViewLayout, l': ViewLayout, collapsed: bool,
    ws: map<string, WorkspaceTreeItem>, ws': map<string, WorkspaceTreeItem>,
    nested: map<string, WorkspaceTreeItem>, nested': map<string, WorkspaceTreeItem>,
    projects: map<string, TreeItemWithTasksOrGroups>, groups: map<string, TreeItemWithTasksOrGroups>)
    requires ItemRep(l, collapsed, ws, nested, projects, groups)
    requires l'.projectFirst == l.projectFirst && l'.projectGroups == l.projectGroups && l'.projectTasks == l.projectTasks
    requires l'.groupFirst == l.groupFirst && l'.groupTasks == l.groupTasks
    requires Extends(ws, ws') && Extends(nested, nested')
    ensures ItemRep(l', collapsed, ws', nested', projects, groups)
  {
    assert ItemParts(l, collapsed, ws, nested, projects, groups);
    ProjectItemsShapeExtend(l.projectFirst, ws, ws', nested, nested', projects);
    GroupItemsShapeExtend(l.groupFirst, ws, ws', nested, nested', groups);
    assert ItemParts(l', collapsed, ws', nested', projects, groups);
  }

  /** A new workspace folder item for the task's scope, named after it, with no parent and nothing in it. */
  method NewWorkspace(t: Task, ghost l: ViewLayout, order: seq<string>, ws: map<string, WorkspaceTreeItem>,
    ghost nested: map<string, WorkspaceTreeItem>, ghost projects: map<string, TreeItemWithTasksOrGroups>)
    returns (order': seq<string>, ws': map<string, WorkspaceTreeItem>, folder: WorkspaceTreeItem)
    requires ScopeName(t) !in ws && FolderParts(l, order, ws, nested, projects)
    ensures fresh(folder) && ws' == ws[ScopeName(t) := folder] && order' == order + [ScopeName(t)]
    ensures FoldersShape(order', l.topFirst[ScopeName(t) := t], ws') && Apart(ws', nested)
    ensures FoldersContent(l.topFolders[ScopeName(t) := []], l.topProjects[ScopeName(t) := []], ws', nested, projects)
    ensures NestedShape(l.nestedFirst, ws', nested) && NestedContent(l.nestedProjects, nested, projects)
  {
    var w := ScopeName(t);
    folder := new WorkspaceTreeItem(w, ScopeUri(t));
    FoldersShapeAdd(order, l.topFirst, ws, t, folder);
    FoldersContentAdd(l.topFolders, l.topProjects, ws, nested, projects, w, folder);
    order', ws' := order + [w], ws[w := folder];
    ExtendsAdd(ws, w, folder);
    NestedShapeWorkspacesExtend(l.nestedFirst, ws, ws', nested);
  }

  /** The folder items hold the layout after a workspace folder item is made, given its parts. */
  lemma WorkspaceMadeRep(l: ViewLayout, t: Task, order': seq<string>, ws': map<string, WorkspaceTreeItem>,
    nested: map<string, WorkspaceTreeItem>, projects: map<string, TreeItemWithTasksOrGroups>)
    requires ScopeName(t) !in l.topFirst && order' == l.topOrder + [ScopeName(t)]
    requires FoldersShape(order', l.topFirst[ScopeName(t) := t], ws') && Apart(ws', nested)
    requires FoldersContent(l.topFolders[ScopeName(t) := []], l.topProjects[ScopeName(t) := []], ws', nested, projects)
    requires NestedShape(l.nestedFirst, ws', nested) && NestedContent(l.nestedProjects, nested, projects)
    ensures FolderRep(WorkspaceStage(l, t), order', ws', nested, projects)
  {
    assert FolderParts(WorkspaceStage(l, t), order', ws', nested, projects);
  }

  /** A workspace folder item made for a scope without one keeps the whole view's representation. */
  method AddWorkspace(t: Task, ghost l: ViewLayout, ghost collapsed: bool, order: seq<string>,
    ws: map<string, WorkspaceTreeItem>, ghost nested: map<string, WorkspaceTreeItem>,
    ghost projects: map<string, TreeItemWithTasksOrGroups>, ghost groups: map<string, TreeItemWithTasksOrGroups>)
    returns (order': seq<string>, ws': map<string, WorkspaceTreeItem>, folder: WorkspaceTreeItem)
    requires ScopeName(t) !in ws && ViewRep(l, collapsed, order, ws, nested, projects, groups)
    ensures ViewRep(WorkspaceStage(l, t), collapsed, order', ws', nested, projects, groups)
    ensures fresh(folder) && ws' == ws[ScopeName(t) := folder]
  {
    assert FolderParts(l, order, ws, nested, projects);
    WorkspaceStageFields(l, t);
    order', ws', folder := NewWorkspace(t, l, order, ws, nested, projects);
    WorkspaceMadeRep(l, t, order', ws', nested, projects);
    ExtendsAdd(ws, ScopeName(t), folder);
    ItemRepFoldersExtend(l, WorkspaceStage(l, t), collapsed, ws, ws', nested, nested, projects, groups);
  }

  /** The workspace folder item of the task's scope, made unless there is one. */
  method PlaceWorkspace(t: Task, ghost l: ViewLayout, ghost collapsed: bool, order: seq<string>,
    ws: map<string, WorkspaceTreeItem>, ghost nested: map<string, WorkspaceTreeItem>,
    ghost projects: map<string, TreeItemWithTasksOrGroups>, ghost groups: map<string, TreeItemWithTasksOrGroups>)
    returns (order': seq<string>, ws': map<string, WorkspaceTreeItem>, folder: WorkspaceTreeItem)
    requires ViewRep(l, collapsed, order, ws, nested, projects, groups)
    ensures ViewRep(WorkspaceStage(l, t), collapsed, order', ws', nested, projects, groups)
    ensures ScopeName(t) in ws' && folder == ws'[ScopeName(t)] && (folder in WorkspaceOf(t, ws) || fresh(folder))
    ensures Extends(ws, ws') && fresh(NewFolders(ws, ws'))
  {
    var w := ScopeName(t);
    if w in ws {
      assert FolderParts(l, order, ws, nested, projects);
      order', ws', folder := order, ws, ws[w];
      assert WorkspaceStage(l, t) == l;
      NewFoldersSame(ws);
    } else {
      order', ws', folder := AddWorkspace(t, l, collapsed, order, ws, nested, projects, groups);
      ExtendsAdd(ws, w, folder);
      NewFoldersAdd(ws, w, folder);
    }
  }

  // ---------------------------------------------------------------------------
  // The nested folder item
  // ---------------------------------------------------------------------------

  lemma FoldersContentExtend(tfo: map<string, seq<string>>, tp: map<string, seq<string>>, ws: map<string, WorkspaceTreeItem>,
    nested: map<string, WorkspaceTreeItem>, nested': map<string, WorkspaceTreeItem>,
    projects: map<string, TreeItemWithTasksOrGroups>, projects': map<string, TreeItemWithTasksOrGroups>)
    requires FoldersContent(tfo, tp, ws, nested, projects) && Extends(nested, nested') && Extends(projects, projects')
    ensures FoldersContent(tfo, tp, ws, nested', projects')
  {
    forall w | w in ws
      ensures Lists(ws[w].projectFolders, nested', tfo[w]) && Lists(ws[w].projects, projects', tp[w])
    {
      ListsExtend(ws[w].projectFolders, nested, nested', tfo[w]);
      ListsExtend(ws[w].projects, projects, projects', tp[w]);
    }
  }

  lemma NestedContentExtend(np: map<string, seq<string>>, nested: map<string, WorkspaceTreeItem>,
    projects: map<string, TreeItemWithTasksOrGroups>, projects': map<string, TreeItemWithTasksOrGroups>)
    requires NestedContent(np, nested, projects) && Extends(projects, projects')
    ensures NestedContent(np, nested, projects')
  {
    forall p | p in nested
      ensures Lists(nested[p].projects, projects', np[p])
    {
      ListsExtend(nested[p].projects, projects, projects', np[p]);
    }
  }

  lemma NestedShapeAdd(nf: map<string, Task>, ws: map<string, WorkspaceTreeItem>, nested: map<string, WorkspaceTreeItem>,
    t: Task, n: WorkspaceTreeItem)
    requires NestedShape(nf, ws, nested) && RelativePath(t) !in nested && n !in nested.Values
    requires n.name == RelativePath(t) && n.resourceUri == t.definition.projectFolder
    requires ScopeName(t) in ws && n.parent == Some(ws[ScopeName(t)]) && n.projectFolders == []
    ensures NestedShape(nf[RelativePath(t) := t], ws, nested[RelativePath(t) := n])
  {
  }

  lemma NestedContentAdd(np: map<string, seq<string>>, nested: map<string, WorkspaceTreeItem>,
    projects: map<string, TreeItemWithTasksOrGroups>, p: string, n: WorkspaceTreeItem)
    requires NestedContent(np, nested, projects) && p !in nested && n !in nested.Values && n.projects == []
    ensures NestedContent(np[p := []], nested[p := n], projects)
  {
  }

  /** A folder item made for a nested project folder, under the workspace folder item `folder`. */
  method NewFolderItem(name: string, resourceUri: string, folder: WorkspaceTreeItem) returns (n: WorkspaceTreeItem)
    ensures fresh(n) && n.name == name && n.resourceUri == resourceUri && n.parent == Some(folder)
    ensures n.projects == [] && n.projectFolders == []
  {
    n := new WorkspaceTreeItem(name, resourceUri);
    n.parent := Some(folder);
  }

  /** `addProjectFolder`, which leaves the nested folder, project and group items as they were. */
  method WorkspaceAddFolder(folder: WorkspaceTreeItem, n: WorkspaceTreeItem, ghost l: ViewLayout, ghost collapsed: bool,
    ghost ws: map<string, WorkspaceTreeItem>, ghost nested: map<string, WorkspaceTreeItem>,
    ghost projects: map<string, TreeItemWithTasksOrGroups>, ghost groups: map<string, TreeItemWithTasksOrGroups>,
    ghost nf: map<string, Task>, ghost np: map<string, seq<string>>, ghost nested': map<string, WorkspaceTreeItem>)
    requires ItemRep(l, collapsed, ws, nested, projects, groups)
    requires NestedShape(nf, ws, nested') && NestedContent(np, nested', projects) && folder !in nested'.Values
    modifies folder
    ensures folder.projectFolders == old(folder.projectFolders) + [n]
    ensures folder.projects == old(folder.projects) && folder.parent == old(folder.parent)
    ensures ItemRep(l, collapsed, ws, nested, projects, groups)
    ensures NestedShape(nf, ws, nested') && NestedContent(np, nested', projects)
  {
    folder.AddProjectFolder(n);
  }

  /** `addProjectFolder` on the workspace folder item of scope `w`: it lists the nested folder `p` after its others. */
  method AddFolderToWorkspace(ghost tfo: map<string, seq<string>>, ghost tp: map<string, seq<string>>,
    ghost nf: map<string, Task>, ghost np: map<string, seq<string>>,
    ws: map<string, WorkspaceTreeItem>, nested: map<string, WorkspaceTreeItem>,
    ghost projects: map<string, TreeItemWithTasksOrGroups>, ghost w: string, folder: WorkspaceTreeItem, p: string,
    ghost l: ViewLayout, ghost collapsed: bool, ghost nested0: map<string, WorkspaceTreeItem>,
    ghost groups: map<string, TreeItemWithTasksOrGroups>)
    requires FoldersContent(tfo, tp, ws, nested, projects) && w in ws && folder == ws[w] && p in nested
    requires ItemRep(l, collapsed, ws, nested0, projects, groups)
    requires forall v :: v in ws ==> ws[v].name == v
    requires NestedShape(nf, ws, nested) && NestedContent(np, nested, projects) && folder !in nested.Values
    modifies folder
    ensures FoldersContent(Append(tfo, w, p), tp, ws, nested, projects)
    ensures NestedShape(nf, ws, nested) && NestedContent(np, nested, projects)
    ensures ItemRep(l, collapsed, ws, nested0, projects, groups)
  {
    ghost var lists := map v | v in ws :: ws[v].projectFolders;
    ghost var tfo' := Append(tfo, w, p);
    WorkspaceAddFolder(folder, nested[p], l, collapsed, ws, nested0, projects, groups, nf, np, nested);
    forall v | v in ws
      ensures Lists(ws[v].projectFolders, nested, tfo'[v])
    {
      if v == w {
        ListsSnoc(lists[v], nested, tfo[v], p);
      } else {
        assert ws[v] != folder;
      }
    }
  }

  /**
   * A new nested folder item for the task's relative path, pointing at its
   * project folder: under the workspace folder item, which lists it after
   * its other folders.
   */
  method NewNested(t: Task, ghost tfo: map<string, seq<string>>, ghost tp: map<string, seq<string>>,
    ghost nf: map<string, Task>, ghost np: map<string, seq<string>>,
    ws: map<string, WorkspaceTreeItem>, nested: map<string, WorkspaceTreeItem>,
    ghost projects: map<string, TreeItemWithTasksOrGroups>, folder: WorkspaceTreeItem,
    ghost l: ViewLayout, ghost collapsed: bool, ghost groups: map<string, TreeItemWithTasksOrGroups>)
    returns (nested': map<string, WorkspaceTreeItem>, n: WorkspaceTreeItem)
    requires ScopeName(t) in ws && folder == ws[ScopeName(t)] && RelativePath(t) !in nested
    requires forall v :: v in ws ==> ws[v].name == v
    requires Apart(ws, nested) && FoldersContent(tfo, tp, ws, nested, projects)
    requires NestedShape(nf, ws, nested) && NestedContent(np, nested, projects)
    requires ItemRep(l, collapsed, ws, nested, projects, groups)
    modifies folder
    ensures fresh(n) && nested' == nested[RelativePath(t) := n] && Apart(ws, nested')
    ensures FoldersContent(Append(tfo, ScopeName(t), RelativePath(t)), tp, ws, nested', projects)
    ensures NestedShape(nf[RelativePath(t) := t], ws, nested') && NestedContent(np[RelativePath(t) := []], nested', projects)
    ensures ItemRep(l, collapsed, ws, nested, projects, groups)
  {
    nested', n := NestedEntry(t, tfo, tp, nf, np, ws, nested, projects, folder, l, collapsed, groups);
    var p := RelativePath(t);
    AddFolderToWorkspace(tfo, tp, nf[p := t], np[p := []], ws, nested', projects, ScopeName(t), folder, p,
      l, collapsed, nested, groups);
  }

  /** The nested folder item made for the task's relative path, entered in the map of nested folder items. */
  method NestedEntry(t: Task, ghost tfo: map<string, seq<string>>, ghost tp: map<string, seq<string>>,
    ghost nf: map<string, Task>, ghost np: map<string, seq<string>>,
    ws: map<string, WorkspaceTreeItem>, nested: map<string, WorkspaceTreeItem>,
    ghost projects: map<string, TreeItemWithTasksOrGroups>, folder: WorkspaceTreeItem,
    ghost l: ViewLayout, ghost collapsed: bool, ghost groups: map<string, TreeItemWithTasksOrGroups>)
    returns (nested': map<string, WorkspaceTreeItem>, n: WorkspaceTreeItem)
    requires ScopeName(t) in ws && folder == ws[ScopeName(t)] && RelativePath(t) !in nested
    requires Apart(ws, nested) && FoldersContent(tfo, tp, ws, nested, projects)
    requires NestedShape(nf, ws, nested) && NestedContent(np, nested, projects)
    ensures fresh(n) && nested' == nested[RelativePath(t) := n] && Apart(ws, nested') && folder !in nested'.Values
    ensures FoldersContent(tfo, tp, ws, nested', projects)
    ensures NestedShape(nf[RelativePath(t) := t], ws, nested') && NestedContent(np[RelativePath(t) := []], nested', projects)
  {
    var p := RelativePath(t);
    n := NewFolderItem(p, t.definition.projectFolder, folder);
    nested' := nested[p := n];
    ExtendsAdd(nested, p, n);
    FoldersContentExtend(tfo, tp, ws, nested, nested', projects, projects);
    NestedShapeAdd(nf, ws, nested, t, n);
    NestedContentAdd(np, nested, projects, p, n);
  }

  /** The folder items hold the layout after a nested folder item is made, given its parts. */
  lemma NestedMadeRep(l: ViewLayout, t: Task, order: seq<string>, ws: map<string, WorkspaceTreeItem>,
    nested': map<string, WorkspaceTreeItem>, projects: map<string, TreeItemWithTasksOrGroups>)
    requires MakesNested(l, t) && order == l.topOrder && FoldersShape(order, l.topFirst, ws) && Apart(ws, nested')
    requires FoldersContent(Append(l.topFolders, ScopeName(t), RelativePath(t)), l.topProjects, ws, nested', projects)
    requires NestedShape(l.nestedFirst[RelativePath(t) := t], ws, nested')
    requires NestedContent(l.nestedProjects[RelativePath(t) := []], nested', projects)
    ensures FolderRep(NestedStage(l, t), order, ws, nested', projects)
  {
    assert FolderParts(NestedStage(l, t), order, ws, nested', projects);
  }

  /** A nested folder item made for a project folder without one keeps the whole view's representation. */
  method AddNested(t: Task, ghost l: ViewLayout, ghost collapsed: bool, ghost order: seq<string>,
    ws: map<string, WorkspaceTreeItem>, nested: map<string, WorkspaceTreeItem>,
    ghost projects: map<string, TreeItemWithTasksOrGroups>, ghost groups: map<string, TreeItemWithTasksOrGroups>,
    folder: WorkspaceTreeItem)
    returns (nested': map<string, WorkspaceTreeItem>, folder': WorkspaceTreeItem)
    requires ViewRep(l, collapsed, order, ws, nested, projects, groups)
    requires ScopeName(t) in ws && folder == ws[ScopeName(t)]
    requires Nests(t) && RelativePath(t) !in nested
    modifies folder
    ensures ViewRep(NestedStage(l, t), collapsed, order, ws, nested', projects, groups)
    ensures fresh(folder') && nested' == nested[RelativePath(t) := folder']
  {
    assert FolderParts(l, order, ws, nested, projects);
    assert MakesNested(l, t);
    NestedStageFields(l, l, t);
    nested', folder' := NewNested(t, l.topFolders, l.topProjects, l.nestedFirst, l.nestedProjects,
      ws, nested, projects, folder, l, collapsed, groups);
    NestedMadeRep(l, t, order, ws, nested', projects);
    ExtendsAdd(nested, RelativePath(t), folder');
    ItemRepFoldersExtend(l, NestedStage(l, t), collapsed, ws, ws, nested, nested', projects, groups);
  }

  /** The folder item a task's project is listed under: its nested folder, made unless there is one, or its workspace folder. */
  method PlaceNested(t: Task, ghost l: ViewLayout, ghost collapsed: bool, ghost order: seq<string>,
    ws: map<string, WorkspaceTreeItem>, nested: map<string, WorkspaceTreeItem>,
    ghost projects: map<string, TreeItemWithTasksOrGroups>, ghost groups: map<string, TreeItemWithTasksOrGroups>,
    folder: WorkspaceTreeItem)
    returns (nested': map<string, WorkspaceTreeItem>, folder': WorkspaceTreeItem)
    requires ViewRep(l, collapsed, order, ws, nested, projects, groups)
    requires ScopeName(t) in ws && folder == ws[ScopeName(t)]
    modifies folder
    ensures ViewRep(NestedStage(l, t), collapsed, order, ws, nested', projects, groups)
    ensures TaskFolder(t, ws, nested', folder')
    ensures folder' == folder || folder' in NestedOf(t, nested) || fresh(folder')
    ensures Extends(nested, nested') && fresh(NewFolders(nested, nested'))
  {
    if Nests(t) && RelativePath(t) !in nested {
      nested', folder' := AddNested(t, l, collapsed, order, ws, nested, projects, groups, folder);
      ExtendsAdd(nested, RelativePath(t), folder');
      NewFoldersAdd(nested, RelativePath(t), folder');
      TaskFolderIs(t, ws, nested', folder');
    } else {
      assert FolderParts(l, order, ws, nested, projects);
      nested' := nested;
      folder' := if Nests(t) then nested[RelativePath(t)] else folder;
      assert NestedStage(l, t) == l;
      NewFoldersSame(nested);
      TaskFolderIs(t, ws, nested', folder');
    }
  }

  // ---------------------------------------------------------------------------
  // The project item
  // ---------------------------------------------------------------------------

  lemma ProjectStageMade(l: ViewLayout, t: Task, collapsed: bool)
    requires KeyOf(t, collapsed) !in l.projectFirst
    ensures var l3 := ProjectStage(l, t, collapsed); var k := KeyOf(t, collapsed);
      && l3.topOrder == l.topOrder && l3.topFirst == l.topFirst && l3.topFolders == l.topFolders
      && l3.nestedFirst == l.nestedFirst
      && l3.topProjects == (if Nests(t) then l.topProjects else Append(l.topProjects, ScopeName(t), k))
      && l3.nestedProjects == (if Nests(t) then Append(l.nestedProjects, RelativePath(t), k) else l.nestedProjects)
      && l3.projectFirst == l.projectFirst[k := t] && l3.projectGroups == l.projectGroups[k := []]
      && l3.projectTasks == l.projectTasks[k := []]
      && l3.groupFirst == l.groupFirst && l3.groupTasks == l.groupTasks
  {
  }

  /** A new project item, for a project key not seen before, under the task's folder item. */
  lemma ProjectItemsShapeAdd(pf: map<string, Task>, ws: map<string, WorkspaceTreeItem>,
    nested: map<string, WorkspaceTreeItem>, projects: map<string, TreeItemWithTasksOrGroups>,
    t: Task, collapsed: bool, project: TreeItemWithTasksOrGroups)
    requires ProjectItemsShape(pf, ws, nested, projects) && KeyOf(t, collapsed) !in projects && FolderKnown(t, ws, nested)
    requires project.kind == ProjectKind && project.name == KeyOf(t, collapsed)
    requires project.resourceUri == Some(t.definition.buildFile)
    requires project.parent == WorkspaceElem(FolderItem(t, ws, nested))
    ensures ProjectItemsShape(pf[KeyOf(t, collapsed) := t], ws, nested, projects[KeyOf(t, collapsed) := project])
  {
  }

  /** A new project item lists no groups and no tasks yet. */
  lemma ProjectItemsContentAdd(pg: map<string, seq<string>>, pt: map<string, seq<Task>>, collapsed: bool,
    projects: map<string, TreeItemWithTasksOrGroups>, groups: map<string, TreeItemWithTasksOrGroups>,
    k: string, project: TreeItemWithTasksOrGroups)
    requires ProjectItemsContent(pg, pt, collapsed, projects, groups) && k !in projects
    requires project.groups == [] && project.tasks == []
    ensures ProjectItemsContent(pg[k := []], pt[k := []], collapsed, projects[k := project], groups)
  {
  }

  /** The project and group items hold the layout after a project item is made, given the new item. */
  lemma ProjectMadeItemRep(l: ViewLayout, l3: ViewLayout, t: Task, collapsed: bool, ws: map<string, WorkspaceTreeItem>,
    nested: map<string, WorkspaceTreeItem>, projects: map<string, TreeItemWithTasksOrGroups>,
    groups: map<string, TreeItemWithTasksOrGroups>, project: TreeItemWithTasksOrGroups)
    requires ItemRep(l, collapsed, ws, nested, projects, groups) && KeyOf(t, collapsed) !in projects
    requires FolderKnown(t, ws, nested)
    requires project.kind == ProjectKind && project.name == KeyOf(t, collapsed)
    requires project.resourceUri == Some(t.definition.buildFile)
    requires project.parent == WorkspaceElem(FolderItem(t, ws, nested))
    requires project.groups == [] && project.tasks == []
    requires l3.projectFirst == l.projectFirst[KeyOf(t, collapsed) := t]
    requires l3.projectGroups == l.projectGroups[KeyOf(t, collapsed) := []]
    requires l3.projectTasks == l.projectTasks[KeyOf(t, collapsed) := []]
    requires l3.groupFirst == l.groupFirst && l3.groupTasks == l.groupTasks
    ensures ItemRep(l3, collapsed, ws, nested, projects[KeyOf(t, collapsed) := project], groups)
  {
    assert ItemParts(l, collapsed, ws, nested, projects, groups);
    var k := KeyOf(t, collapsed);
    ProjectItemsShapeAdd(l.projectFirst, ws, nested, projects, t, collapsed, project);
    ProjectItemsContentAdd(l.projectGroups, l.projectTasks, collapsed, projects, groups, k, project);
    assert ItemParts(l3, collapsed, ws, nested, projects[k := project], groups);
  }

  /** `addProject` on a folder item, which leaves the project and group items as they were. */
  method FolderAddProject(folder: WorkspaceTreeItem, project: TreeItemWithTasksOrGroups, ghost l: ViewLayout,
    ghost collapsed: bool, ghost ws: map<string, WorkspaceTreeItem>, ghost nested: map<string, WorkspaceTreeItem>,
    ghost projects: map<string, TreeItemWithTasksOrGroups>, ghost groups: map<string, TreeItemWithTasksOrGroups>)
    requires ItemRep(l, collapsed, ws, nested, projects, groups)
    modifies folder
    ensures folder.projects == old(folder.projects) + [project]
    ensures folder.projectFolders == old(folder.projectFolders) && folder.parent == old(folder.parent)
    ensures ItemRep(l, collapsed, ws, nested, projects, groups)
  {
    folder.AddProject(project);
  }

  /** `addProject` on a workspace folder item, which leaves the nested folder items as they were. */
  method WorkspaceAddProject(folder: WorkspaceTreeItem, project: TreeItemWithTasksOrGroups, ghost l: ViewLayout,
    ghost collapsed: bool, ghost ws: map<string, WorkspaceTreeItem>, ghost nested: map<string, WorkspaceTreeItem>,
    ghost projects: map<string, TreeItemWithTasksOrGroups>, ghost groups: map<string, TreeItemWithTasksOrGroups>,
    ghost nf: map<string, Task>, ghost np: map<string, seq<string>>)
    requires ItemRep(l, collapsed, ws, nested, projects, groups) && folder !in nested.Values
    requires NestedShape(nf, ws, nested) && NestedContent(np, nested, projects)
    modifies folder
    ensures folder.projects == old(folder.projects) + [project]
    ensures folder.projectFolders == old(folder.projectFolders) && folder.parent == old(folder.parent)
    ensures ItemRep(l, collapsed, ws, nested, projects, groups)
    ensures NestedShape(nf, ws, nested) && NestedContent(np, nested, projects)
  {
    FolderAddProject(folder, project, l, collapsed, ws, nested, projects, groups);
  }

  /** `addProject` on a nested folder item, which leaves the workspace folder items as they were. */
  method NestedAddProject(folder: WorkspaceTreeItem, project: TreeItemWithTasksOrGroups, ghost l: ViewLayout,
    ghost collapsed: bool, ghost ws: map<string, WorkspaceTreeItem>, ghost nested: map<string, WorkspaceTreeItem>,
    ghost projects: map<string, TreeItemWithTasksOrGroups>, ghost groups: map<string, TreeItemWithTasksOrGroups>,
    ghost tfo: map<string, seq<string>>, ghost tp: map<string, seq<string>>)
    requires ItemRep(l, collapsed, ws, nested, projects, groups) && folder !in ws.Values
    requires FoldersContent(tfo, tp, ws, nested, projects)
    modifies folder
    ensures folder.projects == old(folder.projects) + [project]
    ensures folder.projectFolders == old(folder.projectFolders) && folder.parent == old(folder.parent)
    ensures ItemRep(l, collapsed, ws, nested, projects, groups)
    ensures FoldersContent(tfo, tp, ws, nested, projects)
  {
    FolderAddProject(folder, project, l, collapsed, ws, nested, projects, groups);
  }

  /** `addProject` on the workspace folder item of scope `w`: it lists the project `k` after its others. */
  method AddProjectToWorkspace(ghost tfo: map<string, seq<string>>, ghost tp: map<string, seq<string>>,
    ghost nf: map<string, Task>, ghost np: map<string, seq<string>>,
    ghost ws: map<string, WorkspaceTreeItem>, ghost nested: map<string, WorkspaceTreeItem>,
    ghost projects: map<string, TreeItemWithTasksOrGroups>, ghost w: string, folder: WorkspaceTreeItem,
    ghost k: string, project: TreeItemWithTasksOrGroups,
    ghost l: ViewLayout, ghost collapsed: bool, ghost groups: map<string, TreeItemWithTasksOrGroups>)
    requires FoldersContent(tfo, tp, ws, nested, projects) && w in ws && folder == ws[w]
    requires k !in projects && Apart(ws, nested)
    requires forall v :: v in ws ==> ws[v].name == v
    requires NestedShape(nf, ws, nested) && NestedContent(np, nested, projects)
    requires ItemRep(l, collapsed, ws, nested, projects[k := project], groups)
    modifies folder
    ensures FoldersContent(tfo, Append(tp, w, k), ws, nested, projects[k := project])
    ensures NestedShape(nf, ws, nested) && NestedContent(np, nested, projects[k := project])
    ensures ItemRep(l, collapsed, ws, nested, projects[k := project], groups)
  {
    ghost var projects' := projects[k := project];
    ExtendsAdd(projects, k, project);
    FoldersContentExtend(tfo, tp, ws, nested, nested, projects, projects');
    NestedContentExtend(np, nested, projects, projects');
    assert folder !in nested.Values;
    WorkspaceAddProject(folder, project, l, collapsed, ws, nested, projects', groups, nf, np);
    ghost var tp' := Append(tp, w, k);
    forall v | v in ws
      ensures ws[v].parent == None && Lists(ws[v].projectFolders, nested, tfo[v]) && Lists(ws[v].projects, projects', tp'[v])
    {
      if v == w {
        ListsSnoc(old(folder.projects), projects', tp[v], k);
      } else {
        assert ws[v] != folder;
      }
    }
  }

  /** `addProject` on the nested folder item of path `p`: it lists the project `k` after its others. */
  method AddProjectToNested(ghost tfo: map<string, seq<string>>, ghost tp: map<string, seq<string>>,
    ghost nf: map<string, Task>, ghost np: map<string, seq<string>>,
    ghost ws: map<string, WorkspaceTreeItem>, ghost nested: map<string, WorkspaceTreeItem>,
    ghost projects: map<string, TreeItemWithTasksOrGroups>, ghost p: string, folder: WorkspaceTreeItem,
    ghost k: string, project: TreeItemWithTasksOrGroups,
    ghost l: ViewLayout, ghost collapsed: bool, ghost groups: map<string, TreeItemWithTasksOrGroups>)
    requires FoldersContent(tfo, tp, ws, nested, projects) && p in nested && folder == nested[p]
    requires k !in projects && Apart(ws, nested)
    requires NestedShape(nf, ws, nested) && NestedContent(np, nested, projects)
    requires ItemRep(l, collapsed, ws, nested, projects[k := project], groups)
    modifies folder
    ensures FoldersContent(tfo, tp, ws, nested, projects[k := project])
    ensures NestedShape(nf, ws, nested) && NestedContent(Append(np, p, k), nested, projects[k := project])
    ensures ItemRep(l, collapsed, ws, nested, projects[k := project], groups)
  {
    ghost var projects' := projects[k := project];
    ExtendsAdd(projects, k, project);
    FoldersContentExtend(tfo, tp, ws, nested, nested, projects, projects');
    NestedContentExtend(np, nested, projects, projects');
    assert folder !in ws.Values;
    NestedAddProject(folder, project, l, collapsed, ws, nested, projects', groups, tfo, tp);
    ghost var np' := Append(np, p, k);
    forall q | q in nested
      ensures nested[q].parent == old(nested[q].parent) && nested[q].projectFolders == old(nested[q].projectFolders)
      ensures Lists(nested[q].projects, projects', np'[q])
    {
      if q == p {
        ListsSnoc(old(folder.projects), projects', np[q], k);
      } else {
        assert nested[q] != folder;
      }
    }
  }

  /** The folder items hold the layout after a project item is made, given their parts. */
  lemma ProjectMadeRep(l: ViewLayout, t: Task, collapsed: bool, order: seq<string>, ws: map<string, WorkspaceTreeItem>,
    nested: map<string, WorkspaceTreeItem>, projects': map<string, TreeItemWithTasksOrGroups>)
    requires KeyOf(t, collapsed) !in l.projectFirst
    requires order == l.topOrder && FoldersShape(order, l.topFirst, ws) && Apart(ws, nested)
    requires FoldersContent(l.topFolders, ProjectStage(l, t, collapsed).topProjects, ws, nested, projects')
    requires NestedShape(l.nestedFirst, ws, nested)
    requires NestedContent(ProjectStage(l, t, collapsed).nestedProjects, nested, projects')
    ensures FolderRep(ProjectStage(l, t, collapsed), order, ws, nested, projects')
  {
    assert FolderParts(ProjectStage(l, t, collapsed), order, ws, nested, projects');
  }

  /** The folder items hold the layout after the project item is added to the task's nested folder item. */
  method NestedGetsProject(t: Task, ghost l: ViewLayout, ghost collapsed: bool, ghost order: seq<string>,
    ghost ws: map<string, WorkspaceTreeItem>, ghost nested: map<string, WorkspaceTreeItem>,
    ghost projects: map<string, TreeItemWithTasksOrGroups>, folder: WorkspaceTreeItem, project: TreeItemWithTasksOrGroups,
    ghost l3: ViewLayout, ghost groups: map<string, TreeItemWithTasksOrGroups>)
    requires FolderRep(l, order, ws, nested, projects) && KeyOf(t, collapsed) !in projects
    requires KeyOf(t, collapsed) !in l.projectFirst
    requires Nests(t) && RelativePath(t) in nested && folder == nested[RelativePath(t)]
    requires ItemRep(l3, collapsed, ws, nested, projects[KeyOf(t, collapsed) := project], groups)
    modifies folder
    ensures FolderRep(ProjectStage(l, t, collapsed), order, ws, nested, projects[KeyOf(t, collapsed) := project])
    ensures ItemRep(l3, collapsed, ws, nested, projects[KeyOf(t, collapsed) := project], groups)
  {
    assert FolderParts(l, order, ws, nested, projects);
    ProjectStageMade(l, t, collapsed);
    AddProjectToNested(l.topFolders, l.topProjects, l.nestedFirst, l.nestedProjects, ws, nested, projects,
      RelativePath(t), folder, KeyOf(t, collapsed), project, l3, collapsed, groups);
    ProjectMadeRep(l, t, collapsed, order, ws, nested, projects[KeyOf(t, collapsed) := project]);
  }

  /** The folder items hold the layout after the project item is added to the task's workspace folder item. */
  method WorkspaceGetsProject(t: Task, ghost l: ViewLayout, ghost collapsed: bool, ghost order: seq<string>,
    ghost ws: map<string, WorkspaceTreeItem>, ghost nested: map<string, WorkspaceTreeItem>,
    ghost projects: map<string, TreeItemWithTasksOrGroups>, folder: WorkspaceTreeItem, project: TreeItemWithTasksOrGroups,
    ghost l3: ViewLayout, ghost groups: map<string, TreeItemWithTasksOrGroups>)
    requires FolderRep(l, order, ws, nested, projects) && KeyOf(t, collapsed) !in projects
    requires KeyOf(t, collapsed) !in l.projectFirst
    requires !Nests(t) && ScopeName(t) in ws && folder == ws[ScopeName(t)]
    requires ItemRep(l3, collapsed, ws, nested, projects[KeyOf(t, collapsed) := project], groups)
    modifies folder
    ensures FolderRep(ProjectStage(l, t, collapsed), order, ws, nested, projects[KeyOf(t, collapsed) := project])
    ensures ItemRep(l3, collapsed, ws, nested, projects[KeyOf(t, collapsed) := project], groups)
  {
    assert FolderParts(l, order, ws, nested, projects);
    ProjectStageMade(l, t, collapsed);
    AddProjectToWorkspace(l.topFolders, l.topProjects, l.nestedFirst, l.nestedProjects, ws, nested, projects,
      ScopeName(t), folder, KeyOf(t, collapsed), project, l3, collapsed, groups);
    ProjectMadeRep(l, t, collapsed, order, ws, nested, projects[KeyOf(t, collapsed) := project]);
  }

  /** A project item for the task's project key under `folder`, pointing at its build file; the view's items are left as they were. */
  method NewProjectItem(t: Task, collapsed: bool, folder: WorkspaceTreeItem, ghost l: ViewLayout, ghost order: seq<string>,
    ghost ws: map<string, WorkspaceTreeItem>, ghost nested: map<string, WorkspaceTreeItem>,
    ghost projects: map<string, TreeItemWithTasksOrGroups>, ghost groups: map<string, TreeItemWithTasksOrGroups>)
    returns (project: TreeItemWithTasksOrGroups)
    requires ViewRep(l, collapsed, order, ws, nested, projects, groups)
    ensures fresh(project) && project.kind == ProjectKind && project.name == KeyOf(t, collapsed)
    ensures project.resourceUri == Some(t.definition.buildFile) && project.parent == WorkspaceElem(folder)
    ensures project.groups == [] && project.tasks == []
    ensures ViewRep(l, collapsed, order, ws, nested, projects, groups)
  {
    project := new TreeItemWithTasksOrGroups.Project(KeyOf(t, collapsed), WorkspaceElem(folder), Some(t.definition.buildFile));
    assert FolderRep(l, order, ws, nested, projects);
  }

  /**
   * A new project item for the task's project key, pointing at its build
   * file: under the task's folder item, which lists it after its others.
   */
  method AddProjectItem(t: Task, ghost l: ViewLayout, collapsed: bool, ghost order: seq<string>,
    ghost ws: map<string, WorkspaceTreeItem>, ghost nested: map<string, WorkspaceTreeItem>,
    projects: map<string, TreeItemWithTasksOrGroups>, ghost groups: map<string, TreeItemWithTasksOrGroups>,
    folder: WorkspaceTreeItem)
    returns (projects': map<string, TreeItemWithTasksOrGroups>, project: TreeItemWithTasksOrGroups)
    requires ViewRep(l, collapsed, order, ws, nested, projects, groups)
    requires TaskFolder(t, ws, nested, folder) && KeyOf(t, collapsed) !in projects
    modifies folder
    ensures ViewRep(ProjectStage(l, t, collapsed), collapsed, order, ws, nested, projects', groups)
    ensures fresh(project) && projects' == projects[KeyOf(t, collapsed) := project]
  {
    project := NewProjectItem(t, collapsed, folder, l, order, ws, nested, projects, groups);
    AttachProjectItem(t, l, collapsed, order, ws, nested, projects, groups, folder, project);
    projects' := projects[KeyOf(t, collapsed) := project];
  }

  /** The new project item `project` is added to the task's folder item and to the view's project items. */
  method AttachProjectItem(t: Task, ghost l: ViewLayout, ghost collapsed: bool, ghost order: seq<string>,
    ghost ws: map<string, WorkspaceTreeItem>, ghost nested: map<string, WorkspaceTreeItem>,
    ghost projects: map<string, TreeItemWithTasksOrGroups>, ghost groups: map<string, TreeItemWithTasksOrGroups>,
    folder: WorkspaceTreeItem, project: TreeItemWithTasksOrGroups)
    requires ViewRep(l, collapsed, order, ws, nested, projects, groups)
    requires TaskFolder(t, ws, nested, folder) && KeyOf(t, collapsed) !in projects
    requires project.kind == ProjectKind && project.name == KeyOf(t, collapsed)
    requires project.resourceUri == Some(t.definition.buildFile) && project.parent == WorkspaceElem(folder)
    requires project.groups == [] && project.tasks == []
    modifies folder
    ensures ViewRep(ProjectStage(l, t, collapsed), collapsed, order, ws, nested, projects[KeyOf(t, collapsed) := project], groups)
  {
    assert ItemParts(l, collapsed, ws, nested, projects, groups);
    ProjectStageMade(l, t, collapsed);
    ghost var l3 := ProjectStage(l, t, collapsed);
    ProjectMadeItemRep(l, l3, t, collapsed, ws, nested, projects, groups, project);
    if Nests(t) {
      NestedGetsProject(t, l, collapsed, order, ws, nested, projects, folder, project, l3, groups);
    } else {
      WorkspaceGetsProject(t, l, collapsed, order, ws, nested, projects, folder, project, l3, groups);
    }
  }

  /** The project item of the task's project key, made and added to the task's folder item unless there is one. */
  method PlaceProjectItem(t: Task, ghost l: ViewLayout, collapsed: bool, ghost order: seq<string>,
    ghost ws: map<string, WorkspaceTreeItem>, ghost nested: map<string, WorkspaceTreeItem>,
    projects: map<string, TreeItemWithTasksOrGroups>, ghost groups: map<string, TreeItemWithTasksOrGroups>,
    folder: WorkspaceTreeItem)
    returns (projects': map<string, TreeItemWithTasksOrGroups>, project: TreeItemWithTasksOrGroups)
    requires ViewRep(l, collapsed, order, ws, nested, projects, groups)
    requires TaskFolder(t, ws, nested, folder)
    modifies folder
    ensures ViewRep(ProjectStage(l, t, collapsed), collapsed, order, ws, nested, projects', groups)
    ensures ProjectItemIs(t, collapsed, projects', project)
    ensures project in ProjectItemOf(t, collapsed, projects) || fresh(project)
    ensures Extends(projects, projects') && fresh(NewItems(projects, projects'))
  {
    var k := KeyOf(t, collapsed);
    if k in projects {
      assert ItemParts(l, collapsed, ws, nested, projects, groups);
      projects', project := projects, projects[k];
      assert ProjectStage(l, t, collapsed) == l;
      NewItemsSame(projects);
    } else {
      projects', project := AddProjectItem(t, l, collapsed, order, ws, nested, projects, groups, folder);
      ExtendsAdd(projects, k, project);
      NewItemsAdd(projects, k, project);
    }
  }

  // ---------------------------------------------------------------------------
  // The group item
  // ---------------------------------------------------------------------------

  lemma GroupStageMade(l: ViewLayout, t: Task, collapsed: bool)
    requires MakesGroup(l, t, collapsed)
    ensures var l4 := GroupStage(l, t, collapsed);
      && l4.topOrder == l.topOrder && l4.topFirst == l.topFirst && l4.topFolders == l.topFolders
      && l4.nestedFirst == l.nestedFirst && l4.topProjects == l.topProjects && l4.nestedProjects == l.nestedProjects
      && l4.projectFirst == l.projectFirst && l4.projectTasks == l.projectTasks
      && l4.projectGroups == Append(l.projectGroups, KeyOf(t, collapsed), GroupKey(t))
      && l4.groupFirst == l.groupFirst[GroupKey(t) := t] && l4.groupTasks == l.groupTasks[GroupKey(t) := []]
  {
  }

  /** The folder items hold any layout whose folder half is that of `l`. */
  lemma FolderRepSame(l: ViewLayout, l': ViewLayout, order: seq<string>, ws: map<string, WorkspaceTreeItem>,
    nested: map<string, WorkspaceTreeItem>, projects: map<string, TreeItemWithTasksOrGroups>)
    requires FolderRep(l, order, ws, nested, projects)
    requires l'.topOrder == l.topOrder && l'.topFirst == l.topFirst && l'.topFolders == l.topFolders
    requires l'.nestedFirst == l.nestedFirst && l'.topProjects == l.topProjects && l'.nestedProjects == l.nestedProjects
    ensures FolderRep(l', order, ws, nested, projects)
  {
    assert FolderParts(l, order, ws, nested, projects);
    assert FolderParts(l', order, ws, nested, projects);
  }

  /** A new group item, for a group key not seen before, under the task's folder item. */
  lemma GroupItemsShapeAdd(gf: map<string, Task>, ws: map<string, WorkspaceTreeItem>,
    nested: map<string, WorkspaceTreeItem>, groups: map<string, TreeItemWithTasksOrGroups>,
    t: Task, group: TreeItemWithTasksOrGroups)
    requires GroupItemsShape(gf, ws, nested, groups) && GroupKey(t) !in groups && group !in groups.Values
    requires FolderKnown(t, ws, nested)
    requires group.kind == GroupKind && group.name == t.definition.group && group.resourceUri == None
    requires group.parent == WorkspaceElem(FolderItem(t, ws, nested))
    ensures GroupItemsShape(gf[GroupKey(t) := t], ws, nested, groups[GroupKey(t) := group])
  {
    InjectiveAdd(groups, GroupKey(t), group);
  }

  /** A new group item lists no groups and no tasks yet. */
  lemma GroupItemsContentAdd(gt: map<string, seq<Task>>, collapsed: bool, groups: map<string, TreeItemWithTasksOrGroups>,
    g: string, group: TreeItemWithTasksOrGroups)
    requires GroupItemsContent(gt, collapsed, groups) && g !in groups
    requires group.groups == [] && group.tasks == []
    ensures GroupItemsContent(gt[g := []], collapsed, groups[g := group])
  {
  }

  /** The project items keep their lists of groups when the group map only gains entries. */
  lemma ProjectItemsContentExtend(pg: map<string, seq<string>>, pt: map<string, seq<Task>>, collapsed: bool,
    projects: map<string, TreeItemWithTasksOrGroups>, groups: map<string, TreeItemWithTasksOrGroups>,
    groups': map<string, TreeItemWithTasksOrGroups>)
    requires ProjectItemsContent(pg, pt, collapsed, projects, groups) && Extends(groups, groups')
    ensures ProjectItemsContent(pg, pt, collapsed, projects, groups')
  {
    forall k | k in projects
      ensures Lists(projects[k].groups, groups', pg[k])
    {
      ListsExtend(projects[k].groups, groups, groups', pg[k]);
    }
  }

  /** A group item for the task's group under `folder`; the view's items are left as they were. */
  method NewGroupItem(t: Task, folder: WorkspaceTreeItem, ghost l: ViewLayout, ghost collapsed: bool, ghost order: seq<string>,
    ghost ws: map<string, WorkspaceTreeItem>, ghost nested: map<string, WorkspaceTreeItem>,
    ghost projects: map<string, TreeItemWithTasksOrGroups>, ghost groups: map<string, TreeItemWithTasksOrGroups>)
    returns (group: TreeItemWithTasksOrGroups)
    requires ViewRep(l, collapsed, order, ws, nested, projects, groups)
    ensures fresh(group) && group.kind == GroupKind && group.name == t.definition.group
    ensures group.resourceUri == None && group.parent == WorkspaceElem(folder)
    ensures group.groups == [] && group.tasks == []
    ensures ViewRep(l, collapsed, order, ws, nested, projects, groups)
  {
    group := new TreeItemWithTasksOrGroups.Group(t.definition.group, WorkspaceElem(folder), None);
    assert FolderRep(l, order, ws, nested, projects);
  }

  /** `addGroup` on a project item, which leaves the folder items as they were. */
  method ProjectItemAddGroup(project: TreeItemWithTasksOrGroups, group: TreeItemWithTasksOrGroups,
    ghost l: ViewLayout, ghost order: seq<string>, ghost ws: map<string, WorkspaceTreeItem>,
    ghost nested: map<string, WorkspaceTreeItem>, ghost projects: map<string, TreeItemWithTasksOrGroups>)
    requires FolderRep(l, order, ws, nested, projects)
    modifies project
    ensures project.groups == old(project.groups) + [group] && project.tasks == old(project.tasks)
    ensures FolderRep(l, order, ws, nested, projects)
  {
    project.AddGroup(group);
  }

  /** `addGroup` on the project item of key `k`: it lists the group `g` after its others, and the group items are untouched. */
  method AddGroupToProjectItem(ghost pg: map<string, seq<string>>, ghost pt: map<string, seq<Task>>, ghost collapsed: bool,
    ghost projects: map<string, TreeItemWithTasksOrGroups>, ghost k: string, project: TreeItemWithTasksOrGroups,
    ghost groups: map<string, TreeItemWithTasksOrGroups>, ghost g: string, group: TreeItemWithTasksOrGroups,
    ghost gt: map<string, seq<Task>>, ghost l: ViewLayout, ghost order: seq<string>,
    ghost ws: map<string, WorkspaceTreeItem>, ghost nested: map<string, WorkspaceTreeItem>)
    requires ProjectItemsContent(pg, pt, collapsed, projects, groups) && k in projects && project == projects[k] && g !in groups
    requires forall j :: j in projects ==> projects[j].kind == ProjectKind && projects[j].name == j
    requires GroupItemsContent(gt, collapsed, groups[g := group])
    requires group.kind == GroupKind && forall j :: j in groups ==> groups[j].kind == GroupKind
    requires FolderRep(l, order, ws, nested, projects)
    modifies project
    ensures ProjectItemsContent(Append(pg, k, g), pt, collapsed, projects, groups[g := group])
    ensures GroupItemsContent(gt, collapsed, groups[g := group]) && FolderRep(l, order, ws, nested, projects)
  {
    ghost var groups' := groups[g := group];
    ExtendsAdd(groups, g, group);
    ProjectItemsContentExtend(pg, pt, collapsed, projects, groups, groups');
    assert project !in groups'.Values;
    ProjectItemAddGroup(project, group, l, order, ws, nested, projects);
    ghost var pg' := Append(pg, k, g);
    forall j | j in projects
      ensures Lists(projects[j].groups, groups', pg'[j]) && ListsItems(projects[j].tasks, projects[j], pt[j], collapsed)
    {
      if j == k {
        ListsSnoc(old(project.groups), groups', pg[j], g);
      } else {
        assert projects[j] != project;
      }
    }
  }

  /** The project and group items hold the layout after a group item is made, given their parts. */
  lemma GroupMadeItemRep(l: ViewLayout, t: Task, collapsed: bool, ws: map<string, WorkspaceTreeItem>,
    nested: map<string, WorkspaceTreeItem>, projects: map<string, TreeItemWithTasksOrGroups>,
    groups': map<string, TreeItemWithTasksOrGroups>)
    requires MakesGroup(l, t, collapsed)
    requires ProjectItemsShape(l.projectFirst, ws, nested, projects)
    requires ProjectItemsContent(GroupStage(l, t, collapsed).projectGroups, l.projectTasks, collapsed, projects, groups')
    requires GroupItemsShape(GroupStage(l, t, collapsed).groupFirst, ws, nested, groups')
    requires GroupItemsContent(GroupStage(l, t, collapsed).groupTasks, collapsed, groups')
    ensures ItemRep(GroupStage(l, t, collapsed), collapsed, ws, nested, projects, groups')
  {
    assert ItemParts(GroupStage(l, t, collapsed), collapsed, ws, nested, projects, groups');
  }

  /** The item half of the layout after the new group item is added to the task's project item. */
  method ProjectGetsGroup(t: Task, ghost l: ViewLayout, ghost collapsed: bool, ghost order: seq<string>,
    ghost ws: map<string, WorkspaceTreeItem>, ghost nested: map<string, WorkspaceTreeItem>,
    ghost projects: map<string, TreeItemWithTasksOrGroups>, project: TreeItemWithTasksOrGroups,
    ghost groups: map<string, TreeItemWithTasksOrGroups>, group: TreeItemWithTasksOrGroups)
    requires ItemRep(l, collapsed, ws, nested, projects, groups) && FolderRep(l, order, ws, nested, projects)
    requires MakesGroup(l, t, collapsed) && KeyOf(t, collapsed) in projects && project == projects[KeyOf(t, collapsed)]
    requires FolderKnown(t, ws, nested) && group !in groups.Values
    requires group.kind == GroupKind && group.name == t.definition.group && group.resourceUri == None
    requires group.parent == WorkspaceElem(FolderItem(t, ws, nested)) && group.groups == [] && group.tasks == []
    modifies project
    ensures ItemRep(GroupStage(l, t, collapsed), collapsed, ws, nested, projects, groups[GroupKey(t) := group])
    ensures FolderRep(GroupStage(l, t, collapsed), order, ws, nested, projects)
  {
    assert ItemParts(l, collapsed, ws, nested, projects, groups);
    GroupStageMade(l, t, collapsed);
    var g := GroupKey(t);
    GroupItemsShapeAdd(l.groupFirst, ws, nested, groups, t, group);
    GroupItemsContentAdd(l.groupTasks, collapsed, groups, g, group);
    AddGroupToProjectItem(l.projectGroups, l.projectTasks, collapsed, projects, KeyOf(t, collapsed), project,
      groups, g, group, l.groupTasks[g := []], l, order, ws, nested);
    GroupMadeItemRep(l, t, collapsed, ws, nested, projects, groups[g := group]);
    FolderRepSame(l, GroupStage(l, t, collapsed), order, ws, nested, projects);
  }

  /**
   * A new group item for the task's group key, named after its group: under
   * the task's folder item, and listed by the task's project item after its
   * other groups.
   */
  method AddGroupItem(t: Task, ghost l: ViewLayout, ghost collapsed: bool, ghost order: seq<string>,
    ghost ws: map<string, WorkspaceTreeItem>, ghost nested: map<string, WorkspaceTreeItem>,
    ghost projects: map<string, TreeItemWithTasksOrGroups>, groups: map<string, TreeItemWithTasksOrGroups>,
    folder: WorkspaceTreeItem, project: TreeItemWithTasksOrGroups)
    returns (groups': map<string, TreeItemWithTasksOrGroups>, group: TreeItemWithTasksOrGroups)
    requires ViewRep(l, collapsed, order, ws, nested, projects, groups)
    requires TaskFolder(t, ws, nested, folder)
    requires ProjectItemIs(t, collapsed, projects, project)
    requires !collapsed && GroupKey(t) !in groups
    modifies project
    ensures ViewRep(GroupStage(l, t, collapsed), collapsed, order, ws, nested, projects, groups')
    ensures fresh(group) && groups' == groups[GroupKey(t) := group]
  {
    assert ItemParts(l, collapsed, ws, nested, projects, groups);
    group := NewGroupItem(t, folder, l, collapsed, order, ws, nested, projects, groups);
    ProjectGetsGroup(t, l, collapsed, order, ws, nested, projects, project, groups, group);
    groups' := groups[GroupKey(t) := group];
  }

  /**
   * The item the task's item goes in: the project item in a collapsed view;
   * otherwise the group item of the task's group key, made and added to the
   * project item unless there is one.
   */
  method PlaceGroupItem(t: Task, ghost l: ViewLayout, collapsed: bool, ghost order: seq<string>,
    ghost ws: map<string, WorkspaceTreeItem>, ghost nested: map<string, WorkspaceTreeItem>,
    ghost projects: map<string, TreeItemWithTasksOrGroups>, groups: map<string, TreeItemWithTasksOrGroups>,
    folder: WorkspaceTreeItem, project: TreeItemWithTasksOrGroups)
    returns (groups': map<string, TreeItemWithTasksOrGroups>, parent: TreeItemWithTasksOrGroups)
    requires ViewRep(l, collapsed, order, ws, nested, projects, groups)
    requires TaskFolder(t, ws, nested, folder)
    requires ProjectItemIs(t, collapsed, projects, project)
    modifies project
    ensures ViewRep(GroupStage(l, t, collapsed), collapsed, order, ws, nested, projects, groups')
    ensures TaskParent(t, collapsed, projects, groups', parent)
    ensures parent == project || parent in GroupOf(t, groups) || fresh(parent)
    ensures Extends(groups, groups') && fresh(NewItems(groups, groups'))
  {
    var g := GroupKey(t);
    if !collapsed && g !in groups {
      groups', parent := AddGroupItem(t, l, collapsed, order, ws, nested, projects, groups, folder, project);
      ExtendsAdd(groups, g, parent);
      NewItemsAdd(groups, g, parent);
    } else {
      assert ItemParts(l, collapsed, ws, nested, projects, groups);
      groups' := groups;
      parent := if collapsed then project else groups[g];
      assert GroupStage(l, t, collapsed) == l;
      NewItemsSame(groups);
    }
  }

  // ---------------------------------------------------------------------------
  // The task's item
  // ---------------------------------------------------------------------------

  lemma TaskStageMade(l: ViewLayout, t: Task, collapsed: bool)
    ensures var l5 := TaskStage(l, t, collapsed);
      && l5.topOrder == l.topOrder && l5.topFirst == l.topFirst && l5.topFolders == l.topFolders
      && l5.nestedFirst == l.nestedFirst && l5.topProjects == l.topProjects && l5.nestedProjects == l.nestedProjects
      && l5.projectFirst == l.projectFirst && l5.projectGroups == l.projectGroups && l5.groupFirst == l.groupFirst
      && l5.projectTasks == (if collapsed then Append(l.projectTasks, KeyOf(t, collapsed), t) else l.projectTasks)
      && l5.groupTasks == (if collapsed then l.groupTasks else Append(l.groupTasks, GroupKey(t), t))
  {
  }

  /** `addTask` on a project item, which leaves the folder items and the group items as they were. */
  method ProjectItemAddTask(project: TreeItemWithTasksOrGroups, item: GradleTaskTreeItem,
    ghost l: ViewLayout, ghost order: seq<string>, ghost ws: map<string, WorkspaceTreeItem>,
    ghost nested: map<string, WorkspaceTreeItem>, ghost projects: map<string, TreeItemWithTasksOrGroups>,
    ghost gt: map<string, seq<Task>>, ghost collapsed: bool, ghost groups: map<string, TreeItemWithTasksOrGroups>)
    requires FolderRep(l, order, ws, nested, projects) && GroupItemsContent(gt, collapsed, groups)
    requires project !in groups.Values
    modifies project
    ensures project.tasks == old(project.tasks) + [item] && project.groups == old(project.groups)
    ensures FolderRep(l, order, ws, nested, projects) && GroupItemsContent(gt, collapsed, groups)
  {
    project.AddTask(item);
  }

  /** `addTask` on a group item, which leaves the folder items and the project items as they were. */
  method GroupItemAddTask(group: TreeItemWithTasksOrGroups, item: GradleTaskTreeItem,
    ghost l: ViewLayout, ghost order: seq<string>, ghost ws: map<string, WorkspaceTreeItem>,
    ghost nested: map<string, WorkspaceTreeItem>, ghost projects: map<string, TreeItemWithTasksOrGroups>,
    ghost pg: map<string, seq<string>>, ghost pt: map<string, seq<Task>>, ghost collapsed: bool,
    ghost groups: map<string, TreeItemWithTasksOrGroups>)
    requires FolderRep(l, order, ws, nested, projects) && ProjectItemsContent(pg, pt, collapsed, projects, groups)
    requires group !in projects.Values
    modifies group
    ensures group.tasks == old(group.tasks) + [item] && group.groups == old(group.groups)
    ensures FolderRep(l, order, ws, nested, projects) && ProjectItemsContent(pg, pt, collapsed, projects, groups)
  {
    group.AddTask(item);
  }

  /** The project item of key `k` lists the task's item after its others. */
  method AddTaskToProjectItem(t: Task, ghost pg: map<string, seq<string>>, ghost pt: map<string, seq<Task>>, collapsed: bool,
    ghost projects: map<string, TreeItemWithTasksOrGroups>, ghost k: string, project: TreeItemWithTasksOrGroups,
    ghost groups: map<string, TreeItemWithTasksOrGroups>, ghost gt: map<string, seq<Task>>,
    ghost l: ViewLayout, ghost order: seq<string>, ghost ws: map<string, WorkspaceTreeItem>,
    ghost nested: map<string, WorkspaceTreeItem>)
    requires ProjectItemsContent(pg, pt, collapsed, projects, groups) && k in projects && project == projects[k]
    requires forall j :: j in projects ==> projects[j].kind == ProjectKind && projects[j].name == j
    requires forall j :: j in groups ==> groups[j].kind == GroupKind
    requires GroupItemsContent(gt, collapsed, groups) && FolderRep(l, order, ws, nested, projects)
    modifies project
    ensures ProjectItemsContent(pg, Append(pt, k, t), collapsed, projects, groups)
    ensures GroupItemsContent(gt, collapsed, groups) && FolderRep(l, order, ws, nested, projects)
  {
    assert project !in groups.Values;
    ProjectItemAddTask(project, ViewItemOf(project, t, collapsed), l, order, ws, nested, projects, gt, collapsed, groups);
    ghost var pt' := Append(pt, k, t);
    forall j | j in projects
      ensures Lists(projects[j].groups, groups, pg[j]) && ListsItems(projects[j].tasks, projects[j], pt'[j], collapsed)
    {
      if j == k {
        ListsItemsSnoc(old(project.tasks), project, pt[j], t, collapsed);
      } else {
        assert projects[j] != project;
      }
    }
  }

  /** The group item of key `g` lists the task's item after its others. */
  method AddTaskToGroupItem(t: Task, ghost gt: map<string, seq<Task>>, collapsed: bool,
    ghost groups: map<string, TreeItemWithTasksOrGroups>, ghost g: string, group: TreeItemWithTasksOrGroups,
    ghost projects: map<string, TreeItemWithTasksOrGroups>, ghost pg: map<string, seq<string>>, ghost pt: map<string, seq<Task>>,
    ghost l: ViewLayout, ghost order: seq<string>, ghost ws: map<string, WorkspaceTreeItem>,
    ghost nested: map<string, WorkspaceTreeItem>)
    requires GroupItemsContent(gt, collapsed, groups) && g in groups && group == groups[g] && Injective(groups)
    requires forall j :: j in projects ==> projects[j].kind == ProjectKind
    requires group.kind == GroupKind
    requires ProjectItemsContent(pg, pt, collapsed, projects, groups) && FolderRep(l, order, ws, nested, projects)
    modifies group
    ensures GroupItemsContent(Append(gt, g, t), collapsed, groups)
    ensures ProjectItemsContent(pg, pt, collapsed, projects, groups) && FolderRep(l, order, ws, nested, projects)
  {
    assert group !in projects.Values;
    GroupItemAddTask(group, ViewItemOf(group, t, collapsed), l, order, ws, nested, projects, pg, pt, collapsed, groups);
    ghost var gt' := Append(gt, g, t);
    forall j | j in groups
      ensures groups[j].groups == [] && ListsItems(groups[j].tasks, groups[j], gt'[j], collapsed)
    {
      if j == g {
        ListsItemsSnoc(old(group.tasks), group, gt[j], t, collapsed);
      } else {
        assert groups[j] != group;
      }
    }
  }

  /** The project and group items hold the layout after the task's item is added, given their parts. */
  lemma TaskMadeItemRep(l: ViewLayout, t: Task, collapsed: bool, ws: map<string, WorkspaceTreeItem>,
    nested: map<string, WorkspaceTreeItem>, projects: map<string, TreeItemWithTasksOrGroups>,
    groups: map<string, TreeItemWithTasksOrGroups>)
    requires ProjectItemsShape(l.projectFirst, ws, nested, projects)
    requires ProjectItemsContent(l.projectGroups, TaskStage(l, t, collapsed).projectTasks, collapsed, projects, groups)
    requires GroupItemsShape(l.groupFirst, ws, nested, groups)
    requires GroupItemsContent(TaskStage(l, t, collapsed).groupTasks, collapsed, groups)
    ensures ItemRep(TaskStage(l, t, collapsed), collapsed, ws, nested, projects, groups)
  {
    TaskStageMade(l, t, collapsed);
    assert ItemParts(TaskStage(l, t, collapsed), collapsed, ws, nested, projects, groups);
  }

  /**
   * The task's item, labelled as the view shows it and described by the
   * task's description: added to its project item in a collapsed view, to its
   * group item otherwise.
   */
  method PlaceTaskItem(t: Task, ghost l: ViewLayout, collapsed: bool, ghost order: seq<string>,
    ghost ws: map<string, WorkspaceTreeItem>, ghost nested: map<string, WorkspaceTreeItem>,
    ghost projects: map<string, TreeItemWithTasksOrGroups>, ghost groups: map<string, TreeItemWithTasksOrGroups>,
    parent: TreeItemWithTasksOrGroups)
    requires ViewRep(l, collapsed, order, ws, nested, projects, groups)
    requires TaskParent(t, collapsed, projects, groups, parent)
    modifies parent
    ensures ViewRep(TaskStage(l, t, collapsed), collapsed, order, ws, nested, projects, groups)
  {
    assert ItemParts(l, collapsed, ws, nested, projects, groups);
    TaskStageMade(l, t, collapsed);
    if collapsed {
      AddTaskToProjectItem(t, l.projectGroups, l.projectTasks, collapsed, projects, KeyOf(t, collapsed), parent,
        groups, l.groupTasks, l, order, ws, nested);
    } else {
      AddTaskToGroupItem(t, l.groupTasks, collapsed, groups, GroupKey(t), parent,
        projects, l.projectGroups, l.projectTasks, l, order, ws, nested);
    }
    TaskMadeItemRep(l, t, collapsed, ws, nested, projects, groups);
    FolderRepSame(l, TaskStage(l, t, collapsed), order, ws, nested, projects);
  }

  // ---------------------------------------------------------------------------
  // One turn of the loop, and the loop
  // ---------------------------------------------------------------------------

  /** The workspace folder item of the task's scope, if there is one yet. */
  function WorkspaceOf(t: Task, ws: map<string, WorkspaceTreeItem>): set<WorkspaceTreeItem>
  {
    if ScopeName(t) in ws then {ws[ScopeName(t)]} else {}
  }

  /** The nested folder item of the task's relative path, if there is one yet. */
  function NestedOf(t: Task, nested: map<string, WorkspaceTreeItem>): set<WorkspaceTreeItem>
  {
    if RelativePath(t) in nested then {nested[RelativePath(t)]} else {}
  }

  /** The project item of the task's project key, if there is one yet. */
  function ProjectItemOf(t: Task, collapsed: bool, projects: map<string, TreeItemWithTasksOrGroups>): set<TreeItemWithTasksOrGroups>
  {
    if KeyOf(t, collapsed) in projects then {projects[KeyOf(t, collapsed)]} else {}
  }

  /** The folder items of the task, made where missing. */
  method PlaceFolders(t: Task, ghost l: ViewLayout, ghost collapsed: bool, order: seq<string>,
    ws: map<string, WorkspaceTreeItem>, nested: map<string, WorkspaceTreeItem>,
    ghost projects: map<string, TreeItemWithTasksOrGroups>, ghost groups: map<string, TreeItemWithTasksOrGroups>)
    returns (order': seq<string>, ws': map<string, WorkspaceTreeItem>, nested': map<string, WorkspaceTreeItem>,
      folder: WorkspaceTreeItem)
    requires ViewRep(l, collapsed, order, ws, nested, projects, groups)
    modifies WorkspaceOf(t, ws)
    ensures ViewRep(NestedStage(WorkspaceStage(l, t), t), collapsed, order', ws', nested', projects, groups)
    ensures TaskFolder(t, ws', nested', folder)
    ensures folder in WorkspaceOf(t, ws) + NestedOf(t, nested) || fresh(folder)
    ensures Extends(ws, ws') && fresh(NewFolders(ws, ws'))
    ensures Extends(nested, nested') && fresh(NewFolders(nested, nested'))
  {
    var top;
    order', ws', top := PlaceWorkspace(t, l, collapsed, order, ws, nested, projects, groups);
    nested', folder := PlaceNested(t, WorkspaceStage(l, t), collapsed, order', ws', nested, projects, groups, top);
  }

  /** The project and group items of the task, made where missing; `parent` is the one its item goes in. */
  method PlaceContainerItems(t: Task, ghost l: ViewLayout, collapsed: bool, ghost order: seq<string>,
    ghost ws: map<string, WorkspaceTreeItem>, ghost nested: map<string, WorkspaceTreeItem>,
    projects: map<string, TreeItemWithTasksOrGroups>, groups: map<string, TreeItemWithTasksOrGroups>,
    folder: WorkspaceTreeItem)
    returns (projects': map<string, TreeItemWithTasksOrGroups>, groups': map<string, TreeItemWithTasksOrGroups>,
      parent: TreeItemWithTasksOrGroups)
    requires ViewRep(l, collapsed, order, ws, nested, projects, groups)
    requires TaskFolder(t, ws, nested, folder)
    modifies folder, ProjectItemOf(t, collapsed, projects)
    ensures ViewRep(GroupStage(ProjectStage(l, t, collapsed), t, collapsed), collapsed, order, ws, nested, projects', groups')
    ensures TaskParent(t, collapsed, projects', groups', parent)
    ensures parent in ProjectItemOf(t, collapsed, projects) || parent in GroupOf(t, groups) || fresh(parent)
    ensures Extends(projects, projects') && fresh(NewItems(projects, projects'))
    ensures Extends(groups, groups') && fresh(NewItems(groups, groups'))
  {
    var project;
    projects', project := PlaceProjectItem(t, l, collapsed, order, ws, nested, projects, groups, folder);
    groups', parent := PlaceGroupItem(t, ProjectStage(l, t, collapsed), collapsed, order, ws, nested, projects', groups,
      folder, project);
  }

  /** The project and group items of the task, made where missing, and the task's item. */
  method PlaceItems(t: Task, ghost l: ViewLayout, collapsed: bool, ghost order: seq<string>,
    ghost ws: map<string, WorkspaceTreeItem>, ghost nested: map<string, WorkspaceTreeItem>,
    projects: map<string, TreeItemWithTasksOrGroups>, groups: map<string, TreeItemWithTasksOrGroups>,
    folder: WorkspaceTreeItem)
    returns (projects': map<string, TreeItemWithTasksOrGroups>, groups': map<string, TreeItemWithTasksOrGroups>)
    requires ViewRep(l, collapsed, order, ws, nested, projects, groups)
    requires TaskFolder(t, ws, nested, folder)
    modifies folder, ProjectItemOf(t, collapsed, projects), GroupOf(t, groups)
    ensures ViewRep(TaskStage(GroupStage(ProjectStage(l, t, collapsed), t, collapsed), t, collapsed), collapsed,
      order, ws, nested, projects', groups')
    ensures Extends(projects, projects') && fresh(NewItems(projects, projects'))
    ensures Extends(groups, groups') && fresh(NewItems(groups, groups'))
  {
    var parent;
    projects', groups', parent := PlaceContainerItems(t, l, collapsed, order, ws, nested, projects, groups, folder);
    PlaceTaskItem(t, GroupStage(ProjectStage(l, t, collapsed), t, collapsed), collapsed, order, ws, nested,
      projects', groups', parent);
  }

  /**
   * One turn of the loop of `buildTaskTree` on a placed task: the folder,
   * project and (unless collapsed) group items it needs, made where missing,
   * and its own item added under its project or group item.
   */
  method PlaceViewTask(t: Task, ghost l: ViewLayout, collapsed: bool, order: seq<string>,
    ws: map<string, WorkspaceTreeItem>, nested: map<string, WorkspaceTreeItem>,
    projects: map<string, TreeItemWithTasksOrGroups>, groups: map<string, TreeItemWithTasksOrGroups>)
    returns (order': seq<string>, ws': map<string, WorkspaceTreeItem>, nested': map<string, WorkspaceTreeItem>,
      projects': map<string, TreeItemWithTasksOrGroups>, groups': map<string, TreeItemWithTasksOrGroups>)
    requires ViewRep(l, collapsed, order, ws, nested, projects, groups)
    modifies WorkspaceOf(t, ws), NestedOf(t, nested), ProjectItemOf(t, collapsed, projects), GroupOf(t, groups)
    ensures ViewRep(Stages(l, t, collapsed), collapsed, order', ws', nested', projects', groups')
    ensures Extends(ws, ws') && fresh(NewFolders(ws, ws'))
    ensures Extends(nested, nested') && fresh(NewFolders(nested, nested'))
    ensures Extends(projects, projects') && fresh(NewItems(projects, projects'))
    ensures Extends(groups, groups') && fresh(NewItems(groups, groups'))
  {
    var folder;
    order', ws', nested', folder := PlaceFolders(t, l, collapsed, order, ws, nested, projects, groups);
    projects', groups' := PlaceItems(t, NestedStage(WorkspaceStage(l, t), t), collapsed, order', ws', nested',
      projects, groups, folder);
  }

  /** Empty maps hold the layout of no tasks. */
  lemma EmptyViewRep(collapsed: bool)
    ensures ViewRep(ViewOf([], collapsed), collapsed, [], map[], map[], map[], map[])
  {
    var l := ViewOf([], collapsed);
    assert Keys([], ScopeName) == [];
    assert FolderParts(l, [], map[], map[], map[]);
    assert ItemParts(l, collapsed, map[], map[], map[], map[]);
  }

  /** The placed tasks among the first `i + 1`: those among the first `i`, and the next one if it is placed. */
  lemma PlacedStep(tasks: seq<Task>, i: nat)
    requires i < |tasks|
    ensures Placed(tasks[..i + 1]) == if IsPlaced(tasks[i]) then Placed(tasks[..i]) + [tasks[i]] else Placed(tasks[..i])
  {
    assert tasks[..i + 1][..i] == tasks[..i];
  }

  /** A turn of the loop on a placed task: the maps that held the layout of `acc` hold that of `acc + [t]`. */
  method PlaceTask(t: Task, ghost acc: seq<Task>, collapsed: bool, order: seq<string>,
    ws: map<string, WorkspaceTreeItem>, nested: map<string, WorkspaceTreeItem>,
    projects: map<string, TreeItemWithTasksOrGroups>, groups: map<string, TreeItemWithTasksOrGroups>)
    returns (order': seq<string>, ws': map<string, WorkspaceTreeItem>, nested': map<string, WorkspaceTreeItem>,
      projects': map<string, TreeItemWithTasksOrGroups>, groups': map<string, TreeItemWithTasksOrGroups>)
    requires ViewBuilt(ViewOf(acc, collapsed), collapsed, order, ws, nested, projects, groups)
    modifies WorkspaceOf(t, ws), NestedOf(t, nested), ProjectItemOf(t, collapsed, projects), GroupOf(t, groups)
    ensures ViewBuilt(ViewOf(acc + [t], collapsed), collapsed, order', ws', nested', projects', groups')
    ensures Extends(ws, ws') && fresh(NewFolders(ws, ws'))
    ensures Extends(nested, nested') && fresh(NewFolders(nested, nested'))
    ensures Extends(projects, projects') && fresh(NewItems(projects, projects'))
    ensures Extends(groups, groups') && fresh(NewItems(groups, groups'))
  {
    ghost var l := ViewOf(acc, collapsed);
    assert ViewRep(l, collapsed, order, ws, nested, projects, groups);
    order', ws', nested', projects', groups' := PlaceViewTask(t, l, collapsed, order, ws, nested, projects, groups);
    StagesTurn(l, t, collapsed);
    ViewStep(acc, t, collapsed);
  }

  /**
   * The body of `tasks.forEach(...)` in `buildTaskTree` on the task at `i`:
   * a placed task is put into the maps, any other is passed over.
   */
  method VisitTask(tasks: seq<Task>, i: nat, collapsed: bool, order: seq<string>,
    ws: map<string, WorkspaceTreeItem>, nested: map<string, WorkspaceTreeItem>,
    projects: map<string, TreeItemWithTasksOrGroups>, groups: map<string, TreeItemWithTasksOrGroups>)
    returns (order': seq<string>, ws': map<string, WorkspaceTreeItem>, nested': map<string, WorkspaceTreeItem>,
      projects': map<string, TreeItemWithTasksOrGroups>, groups': map<string, TreeItemWithTasksOrGroups>)
    requires i < |tasks|
    requires ViewBuilt(ViewOf(Placed(tasks[..i]), collapsed), collapsed, order, ws, nested, projects, groups)
    modifies WorkspaceOf(tasks[i], ws), NestedOf(tasks[i], nested), ProjectItemOf(tasks[i], collapsed, projects),
      GroupOf(tasks[i], groups)
    ensures ViewBuilt(ViewOf(Placed(tasks[..i + 1]), collapsed), collapsed, order', ws', nested', projects', groups')
    ensures Extends(ws, ws') && fresh(NewFolders(ws, ws'))
    ensures Extends(nested, nested') && fresh(NewFolders(nested, nested'))
    ensures Extends(projects, projects') && fresh(NewItems(projects, projects'))
    ensures Extends(groups, groups') && fresh(NewItems(groups, groups'))
  {
    PlacedStep(tasks, i);
    if IsPlaced(tasks[i]) {
      order', ws', nested', projects', groups' := PlaceTask(tasks[i], Placed(tasks[..i]), collapsed, order, ws, nested,
        projects, groups);
    } else {
      order', ws', nested', projects', groups' := order, ws, nested, projects, groups;
      NewFoldersSame(ws);
      NewFoldersSame(nested);
      NewItemsSame(projects);
      NewItemsSame(groups);
    }
  }

  /**
   * `tasks.forEach(...)` in `buildTaskTree`: the tasks are visited in order
   * and each placed one is put into the four maps, which start empty and
   * end up holding the layout of the placed tasks.
   */
  method FillMaps(tasks: seq<Task>, collapsed: bool)
    returns (order: seq<string>, ws: map<string, WorkspaceTreeItem>, nested: map<string, WorkspaceTreeItem>,
      projects: map<string, TreeItemWithTasksOrGroups>, groups: map<string, TreeItemWithTasksOrGroups>)
    ensures ViewBuilt(ViewOf(Placed(tasks), collapsed), collapsed, order, ws, nested, projects, groups)
  {
    order, ws, nested, projects, groups := [], map[], map[], map[], map[];
    EmptyViewRep(collapsed);
    assert Placed(tasks[..0]) == [];
    for i := 0 to |tasks|
      invariant ViewBuilt(ViewOf(Placed(tasks[..i]), collapsed), collapsed, order, ws, nested, projects, groups)
      invariant forall w :: w in ws ==> fresh(ws[w])
      invariant forall p :: p in nested ==> fresh(nested[p])
      invariant forall k :: k in projects ==> fresh(projects[k])
      invariant forall g :: g in groups ==> fresh(groups[g])
    {
      ghost var ws0, nested0, projects0, groups0 := ws, nested, projects, groups;
      order, ws, nested, projects, groups := VisitTask(tasks, i, collapsed, order, ws, nested, projects, groups);
      NewFoldersCover(ws0, ws);
      NewFoldersCover(nested0, nested);
      NewItemsCover(projects0, projects);
      NewItemsCover(groups0, groups);
    }
    assert tasks[..|tasks|] == tasks;
  }

  /**
   * `r` is what `buildTaskTree` answers on `tasks`, having filled the maps:
   * they hold the layout of the placed tasks; the workspace folder items
   * stand one for each scope, in the order the scopes first appear; with
   * exactly one of them the answer is the folders and then the projects it
   * lists, otherwise every one of them, in order.
   */
  ghost predicate BuiltTree(r: seq<Element>, tasks: seq<Task>, collapsed: bool, order: seq<string>,
    ws: map<string, WorkspaceTreeItem>, nested: map<string, WorkspaceTreeItem>,
    projects: map<string, TreeItemWithTasksOrGroups>, groups: map<string, TreeItemWithTasksOrGroups>)
    reads ws.Values, nested.Values, projects.Values, groups.Values
  {
    forall u | u == r :: TreeParts(u, tasks, collapsed, order, ws, nested, projects, groups)
  }

  ghost predicate TreeParts(r: seq<Element>, tasks: seq<Task>, collapsed: bool, order: seq<string>,
    ws: map<string, WorkspaceTreeItem>, nested: map<string, WorkspaceTreeItem>,
    projects: map<string, TreeItemWithTasksOrGroups>, groups: map<string, TreeItemWithTasksOrGroups>)
    reads ws.Values, nested.Values, projects.Values, groups.Values
  {
    && ViewBuilt(ViewOf(Placed(tasks), collapsed), collapsed, order, ws, nested, projects, groups)
    && order == Dedup(Keys(Placed(tasks), ScopeName))
    && (forall w :: w in ws <==> w in order)
    && (|ws| == 1 ==> order != [] && r == WorkspaceElems(ws[order[0]].projectFolders) + ContainerElems(ws[order[0]].projects))
    && (|ws| != 1 ==> r == WorkspaceElems(InOrder(order, ws)))
  }

  /** `buildTaskTree`: the maps are filled from the tasks and the answer is read off the workspace folder map. */
  method BuildTaskTree(tasks: seq<Task>, collapsed: bool)
    returns (r: seq<Element>, ghost order: seq<string>, ghost ws: map<string, WorkspaceTreeItem>,
      ghost nested: map<string, WorkspaceTreeItem>, ghost projects: map<string, TreeItemWithTasksOrGroups>,
      ghost groups: map<string, TreeItemWithTasksOrGroups>)
    ensures BuiltTree(r, tasks, collapsed, order, ws, nested, projects, groups)
  {
    var order', ws', nested', projects', groups' := FillMaps(tasks, collapsed);
    r := TopLevel(tasks, collapsed, order', ws', nested', projects', groups');
    order, ws, nested, projects, groups := order', ws', nested', projects', groups';
  }

  /**
   * The end of `buildTaskTree`: with one workspace folder, its nested folders
   * and then its projects; otherwise every workspace folder, in order.
   */
  method TopLevel(tasks: seq<Task>, collapsed: bool, order: seq<string>, ws: map<string, WorkspaceTreeItem>,
      ghost nested: map<string, WorkspaceTreeItem>, ghost projects: map<string, TreeItemWithTasksOrGroups>,
      ghost groups: map<string, TreeItemWithTasksOrGroups>)
    returns (r: seq<Element>)
    requires ViewBuilt(ViewOf(Placed(tasks), collapsed), collapsed, order, ws, nested, projects, groups)
    ensures BuiltTree(r, tasks, collapsed, order, ws, nested, projects, groups)
  {
    TopLevelKeys(tasks, collapsed, order, ws, nested, projects, groups);
    if |ws| == 1 {
      assert order != [] by { var w :| w in ws; }
      r := WorkspaceElems(ws[order[0]].projectFolders) + ContainerElems(ws[order[0]].projects);
    } else {
      r := WorkspaceElems(InOrder(order, ws));
    }
    assert TreeParts(r, tasks, collapsed, order, ws, nested, projects, groups);
  }

  /** The workspace folder map of a built view is keyed by the scopes in their first-occurrence order. */
  lemma TopLevelKeys(tasks: seq<Task>, collapsed: bool, order: seq<string>, ws: map<string, WorkspaceTreeItem>,
      nested: map<string, WorkspaceTreeItem>, projects: map<string, TreeItemWithTasksOrGroups>,
      groups: map<string, TreeItemWithTasksOrGroups>)
    requires ViewBuilt(ViewOf(Placed(tasks), collapsed), collapsed, order, ws, nested, projects, groups)
    ensures order == Dedup(Keys(Placed(tasks), ScopeName))
    ensures forall w :: w in ws <==> w in order
  {
    var l := ViewOf(Placed(tasks), collapsed);
    assert ViewRep(l, collapsed, order, ws, nested, projects, groups);
    assert FolderParts(l, order, ws, nested, projects);
  }
}
