/**
 * The newer task view's tree data provider: it builds the tree of root
 * project, project, group and task items from the loaded tasks, keeping the
 * items it made in four maps, and answers the editor's `getChildren` and
 * `getParent` queries.
 *
 * The builder is proved to leave its maps exactly as `LayoutOf` describes
 * the accepted tasks; the lemmas of `TaskTreeSpec` say what that layout is.
 *
 * `Rep` writes its body as `(…) == true`: that means the body, and only keeps
 * the verifier from opening it where a proof does not need it.
 */
module TasksTreeProvider {
  import opened Wrappers
  import opened Collation
  import opened Proto
  import opened TaskDefinitions
  import opened TreeItems
  import opened SubFolderItems
  import opened TaskTreeSpec

  const TasksLabel := "Tasks"

  /** The item made for task `t` under `parent`: named after the task, described by its description or else its name. */
  function TaskItemOf(parent: TreeItemWithTasksOrGroups, t: Task): GradleTaskTreeItem
  {
    var taskName := TaskName(t.definition.script);
    GradleTaskTreeItem(parent, t, taskName, if t.definition.description == "" then taskName else t.definition.description)
  }

  /** `vs` are the entries of `m` under the keys `ks`, in order. */
  ghost predicate Lists<V>(vs: seq<V>, m: map<string, V>, ks: seq<string>)
  {
    |vs| == |ks| && forall i :: 0 <= i < |ks| ==> ks[i] in m && vs[i] == m[ks[i]]
  }

  /** `items` are the items made for the tasks `ts` under `parent`, in order. */
  ghost predicate ListsTasks(items: seq<GradleTaskTreeItem>, parent: TreeItemWithTasksOrGroups, ts: seq<Task>)
  {
    |items| == |ts| && forall i :: 0 <= i < |ts| ==> items[i] == TaskItemOf(parent, ts[i])
  }

  /** Distinct keys hold distinct items. */
  ghost predicate Injective<V>(m: map<string, V>)
  {
    forall j, k :: j in m && k in m && j != k ==> m[j] != m[k]
  }

  /** `m'` keeps every entry of `m`. */
  ghost predicate Extends<V>(m: map<string, V>, m': map<string, V>)
  {
    forall k :: k in m ==> k in m' && m'[k] == m[k]
  }

  lemma ListsSnoc<V>(vs: seq<V>, m: map<string, V>, ks: seq<string>, k: string)
    requires Lists(vs, m, ks) && k in m
    ensures Lists(vs + [m[k]], m, ks + [k])
  {
  }

  lemma ListsExtend<V>(vs: seq<V>, m: map<string, V>, m': map<string, V>, ks: seq<string>)
    requires Lists(vs, m, ks) && Extends(m, m')
    ensures Lists(vs, m', ks)
  {
  }

  lemma ListsTasksSnoc(items: seq<GradleTaskTreeItem>, parent: TreeItemWithTasksOrGroups, ts: seq<Task>, t: Task)
    requires ListsTasks(items, parent, ts)
    ensures ListsTasks(items + [TaskItemOf(parent, t)], parent, ts + [t])
  {
  }

  lemma ExtendsAdd<V>(m: map<string, V>, k: string, v: V)
    requires k !in m
    ensures Extends(m, m[k := v]) && forall x :: x in m[k := v] && x !in m ==> x == k
  {
  }

  lemma ExtendsTrans<V>(m: map<string, V>, m': map<string, V>, m'': map<string, V>)
    requires Extends(m, m') && Extends(m', m'')
    ensures Extends(m, m'')
  {
  }

  lemma InjectiveAdd<V>(m: map<string, V>, k: string, v: V)
    requires Injective(m) && k !in m && v !in m.Values
    ensures Injective(m[k := v])
  {
  }

  function ContainerElems(cs: seq<TreeItemWithTasksOrGroups>): (es: seq<Element>)
    ensures |es| == |cs| && forall i :: 0 <= i < |cs| ==> es[i] == ContainerElem(cs[i])
  {
    if cs == [] then [] else [ContainerElem(cs[0])] + ContainerElems(cs[1..])
  }

  function RootElems(rs: seq<RootProjectTreeItem>): (es: seq<Element>)
    ensures |es| == |rs| && forall i :: 0 <= i < |rs| ==> es[i] == RootProjectElem(rs[i])
  {
    if rs == [] then [] else [RootProjectElem(rs[0])] + RootElems(rs[1..])
  }

  function TaskElems(ts: seq<GradleTaskTreeItem>): (es: seq<Element>)
    ensures |es| == |ts| && forall i :: 0 <= i < |ts| ==> es[i] == TaskElem(ts[i])
  {
    if ts == [] then [] else [TaskElem(ts[0])] + TaskElems(ts[1..])
  }

  /** The root project items are those listed in `order`, each named after its folder. */
  ghost predicate RootsShape(order: seq<string>, roots: map<string, RootProjectTreeItem>,
    store: map<string, RootProject>, basename: string -> string)
  {
    && (forall f :: f in roots <==> f in order)
    && Injective(roots)
    && forall f :: f in roots ==>
         f in store && roots[f].name == basename(f) && roots[f].resourceUri == store[f].projectUri
  }

  /** Each root project item lists the project items of `rp`, in order. */
  ghost predicate RootsContent(rp: map<string, seq<string>>, roots: map<string, RootProjectTreeItem>,
    projects: map<string, TreeItemWithTasksOrGroups>)
    reads roots.Values
  {
    && roots.Keys == rp.Keys
    && forall f :: f in roots ==> Lists(roots[f].projects, projects, rp[f])
  }

  /** The project items are those of `pf`, each named after and under the root of its first task. */
  ghost predicate ProjectsShape(pf: map<string, Task>, roots: map<string, RootProjectTreeItem>,
    projects: map<string, TreeItemWithTasksOrGroups>)
  {
    && projects.Keys == pf.Keys
    && forall b :: b in projects ==>
         && projects[b].kind == ProjectKind
         && projects[b].name == pf[b].definition.project
         && projects[b].resourceUri == Some(b)
         && FolderKey(pf[b]) in roots
         && projects[b].parent == RootProjectElem(roots[FolderKey(pf[b])])
  }

  /** Each project item lists the group items of `pg` and the items of the tasks of `pt`, in order. */
  ghost predicate ProjectsContent(pg: map<string, seq<string>>, pt: map<string, seq<Task>>,
    projects: map<string, TreeItemWithTasksOrGroups>, groups: map<string, TreeItemWithTasksOrGroups>)
    reads projects.Values
  {
    && pg.Keys == projects.Keys
    && pt.Keys == projects.Keys
    && forall b :: b in projects ==>
         Lists(projects[b].groups, groups, pg[b]) && ListsTasks(projects[b].tasks, projects[b], pt[b])
  }

  /** The group items are those of `gf`, each named after and under the project of its first task. */
  ghost predicate GroupsShape(gf: map<string, Task>,
    projects: map<string, TreeItemWithTasksOrGroups>, groups: map<string, TreeItemWithTasksOrGroups>)
  {
    && groups.Keys == gf.Keys
    && Injective(groups)
    && forall g :: g in groups ==>
         && groups[g].kind == GroupKind
         && groups[g].name == gf[g].definition.group
         && groups[g].resourceUri == None
         && BuildFileKey(gf[g]) in projects
         && groups[g].parent == ContainerElem(projects[BuildFileKey(gf[g])])
  }

  /** Each group item lists the items of the tasks of `gt`, in order, and no groups. */
  ghost predicate GroupsContent(gt: map<string, seq<Task>>, groups: map<string, TreeItemWithTasksOrGroups>)
    reads groups.Values
  {
    && gt.Keys == groups.Keys
    && forall g :: g in groups ==> groups[g].groups == [] && ListsTasks(groups[g].tasks, groups[g], gt[g])
  }

  /** The item a task is listed under: its project's in a collapsed view, its group's otherwise. */
  ghost predicate ParentKnown(t: Task, collapsed: bool,
    projects: map<string, TreeItemWithTasksOrGroups>, groups: map<string, TreeItemWithTasksOrGroups>)
  {
    if collapsed then BuildFileKey(t) in projects else GroupKey(t) in groups
  }

  ghost function ParentOf(t: Task, collapsed: bool,
    projects: map<string, TreeItemWithTasksOrGroups>, groups: map<string, TreeItemWithTasksOrGroups>): TreeItemWithTasksOrGroups
    requires ParentKnown(t, collapsed, projects, groups)
  {
    if collapsed then projects[BuildFileKey(t)] else groups[GroupKey(t)]
  }

  /** Each id maps to the item of the task `ids` records for it, under its project or group. */
  ghost predicate TaskIdsRep(ids: map<string, Task>, collapsed: bool, tasks: map<string, GradleTaskTreeItem>,
    projects: map<string, TreeItemWithTasksOrGroups>, groups: map<string, TreeItemWithTasksOrGroups>)
  {
    && tasks.Keys == ids.Keys
    && forall id :: id in tasks ==>
         && ParentKnown(ids[id], collapsed, projects, groups)
         && tasks[id] == TaskItemOf(ParentOf(ids[id], collapsed, projects, groups), ids[id])
  }

  /** The four maps of items, and the items in them, hold the layout `l`. */
  ghost predicate Rep(l: Layout, collapsed: bool, order: seq<string>, roots: map<string, RootProjectTreeItem>,
    projects: map<string, TreeItemWithTasksOrGroups>, groups: map<string, TreeItemWithTasksOrGroups>,
    tasks: map<string, GradleTaskTreeItem>, store: map<string, RootProject>, basename: string -> string)
    reads roots.Values, projects.Values, groups.Values
  {
    RepParts(l, collapsed, order, roots, projects, groups, tasks, store, basename) == true
  }

  /** The parts of `Rep`, one per map and per field of the layout. */
  ghost predicate RepParts(l: Layout, collapsed: bool, order: seq<string>, roots: map<string, RootProjectTreeItem>,
    projects: map<string, TreeItemWithTasksOrGroups>, groups: map<string, TreeItemWithTasksOrGroups>,
    tasks: map<string, GradleTaskTreeItem>, store: map<string, RootProject>, basename: string -> string)
    reads roots.Values, projects.Values, groups.Values
  {
    && order == l.rootOrder
    && RootsShape(order, roots, store, basename)
    && RootsContent(l.rootProjects, roots, projects)
    && ProjectsShape(l.projectFirst, roots, projects)
    && ProjectsContent(l.projectGroups, l.projectTasks, projects, groups)
    && GroupsShape(l.groupFirst, projects, groups)
    && GroupsContent(l.groupTasks, groups)
    && TaskIdsRep(l.taskIds, collapsed, tasks, projects, groups)
  }

  /** A new root project item, for a folder not seen before. */
  lemma RootsShapeAdd(order: seq<string>, roots: map<string, RootProjectTreeItem>,
    store: map<string, RootProject>, basename: string -> string, f: string, root: RootProjectTreeItem)
    requires RootsShape(order, roots, store, basename)
    requires f !in roots && f in store && root !in roots.Values
    requires root.name == basename(f) && root.resourceUri == store[f].projectUri
    ensures RootsShape(order + [f], roots[f := root], store, basename)
  {
    InjectiveAdd(roots, f, root);
  }

  /** A new root project item lists no projects yet. */
  lemma RootsContentAdd(rp: map<string, seq<string>>, roots: map<string, RootProjectTreeItem>,
    projects: map<string, TreeItemWithTasksOrGroups>, f: string, root: RootProjectTreeItem)
    requires RootsContent(rp, roots, projects)
    requires f !in roots && root.projects == []
    ensures RootsContent(rp[f := []], roots[f := root], projects)
  {
  }

  /** The root project item of the task's folder, made unless there is one. */
  method EnsureRoot(t: Task, ghost l: Layout, roots: map<string, RootProjectTreeItem>, order: seq<string>,
    ghost projects: map<string, TreeItemWithTasksOrGroups>, store: map<string, RootProject>, basename: string -> string)
    returns (root: RootProjectTreeItem, roots': map<string, RootProjectTreeItem>, order': seq<string>)
    requires order == l.rootOrder && FolderKey(t) in store
    requires RootsShape(order, roots, store, basename) && RootsContent(l.rootProjects, roots, projects)
    ensures order' == WithRoot(l, t).rootOrder
    ensures RootsShape(order', roots', store, basename) && RootsContent(WithRoot(l, t).rootProjects, roots', projects)
    ensures Extends(roots, roots') && forall f :: f in roots' && f !in roots ==> fresh(roots'[f])
    ensures forall k :: k in roots' && k !in roots ==> k == FolderKey(t)
    ensures FolderKey(t) in roots' && root == roots'[FolderKey(t)]
  {
    var f := FolderKey(t);
    if f in roots {
      root, roots', order' := roots[f], roots, order;
    } else {
      root := new RootProjectTreeItem(basename(f), store[f].projectUri);
      RootsShapeAdd(order, roots, store, basename, f, root);
      RootsContentAdd(l.rootProjects, roots, projects, f, root);
      roots', order' := roots[f := root], order + [f];
    }
  }

  /** The project items keep their parents when the root map only gains entries. */
  lemma ProjectsShapeRootsExtend(pf: map<string, Task>, roots: map<string, RootProjectTreeItem>,
    roots': map<string, RootProjectTreeItem>, projects: map<string, TreeItemWithTasksOrGroups>)
    requires ProjectsShape(pf, roots, projects) && Extends(roots, roots')
    ensures ProjectsShape(pf, roots', projects)
  {
  }

  /** A new project item, for a build file not seen before, under the root of the task's folder. */
  lemma ProjectsShapeAdd(pf: map<string, Task>, roots: map<string, RootProjectTreeItem>,
    projects: map<string, TreeItemWithTasksOrGroups>, t: Task, project: TreeItemWithTasksOrGroups)
    requires ProjectsShape(pf, roots, projects) && BuildFileKey(t) !in projects
    requires project.kind == ProjectKind && project.name == t.definition.project
    requires project.resourceUri == Some(BuildFileKey(t))
    requires FolderKey(t) in roots && project.parent == RootProjectElem(roots[FolderKey(t)])
    ensures ProjectsShape(pf[BuildFileKey(t) := t], roots, projects[BuildFileKey(t) := project])
  {
  }

  /** A new project item lists no groups and no tasks yet. */
  lemma ProjectsContentAdd(pg: map<string, seq<string>>, pt: map<string, seq<Task>>,
    projects: map<string, TreeItemWithTasksOrGroups>, groups: map<string, TreeItemWithTasksOrGroups>,
    b: string, project: TreeItemWithTasksOrGroups)
    requires ProjectsContent(pg, pt, projects, groups) && b !in projects && project !in projects.Values
    requires project.groups == [] && project.tasks == []
    ensures ProjectsContent(pg[b := []], pt[b := []], projects[b := project], groups)
  {
  }

  /**
   * `addProject` on the root of folder `f`: the root lists the new project
   * item after its others, and the project and group items are untouched.
   */
  method AddProjectToRoot(ghost rp: map<string, seq<string>>, roots: map<string, RootProjectTreeItem>,
    ghost projects: map<string, TreeItemWithTasksOrGroups>, ghost f: string, root: RootProjectTreeItem,
    ghost b: string, project: TreeItemWithTasksOrGroups,
    ghost pg: map<string, seq<string>>, ghost pt: map<string, seq<Task>>,
    ghost gt: map<string, seq<Task>>, ghost groups: map<string, TreeItemWithTasksOrGroups>)
    requires RootsContent(rp, roots, projects) && Injective(roots) && f in roots && root == roots[f] && b !in projects
    requires ProjectsContent(pg, pt, projects[b := project], groups) && GroupsContent(gt, groups)
    modifies root
    ensures RootsContent(Append(rp, f, b), roots, projects[b := project])
    ensures ProjectsContent(pg, pt, projects[b := project], groups) && GroupsContent(gt, groups)
  {
    ghost var lists := map k | k in roots :: roots[k].projects;
    root.AddProject(project);
    ghost var rp', projects' := Append(rp, f, b), projects[b := project];
    forall k | k in roots
      ensures Lists(roots[k].projects, projects', rp'[k])
    {
      ListsExtend(lists[k], projects, projects', rp[k]);
      if k == f {
        ListsSnoc(lists[k], projects', rp[k], b);
      } else {
        assert roots[k] != root;
      }
    }
  }

  /** A new project item for the task's build file, added to its root. */
  method NewProject(t: Task, ghost l: Layout, root: RootProjectTreeItem,
    roots: map<string, RootProjectTreeItem>, projects: map<string, TreeItemWithTasksOrGroups>,
    ghost groups: map<string, TreeItemWithTasksOrGroups>)
    returns (project: TreeItemWithTasksOrGroups, projects': map<string, TreeItemWithTasksOrGroups>)
    requires FolderKey(t) in roots && root == roots[FolderKey(t)] && Injective(roots)
    requires BuildFileKey(t) !in projects
    requires RootsContent(l.rootProjects, roots, projects)
    requires ProjectsShape(l.projectFirst, roots, projects)
    requires ProjectsContent(l.projectGroups, l.projectTasks, projects, groups)
    requires GroupsContent(l.groupTasks, groups)
    modifies root
    ensures var b := BuildFileKey(t);
      && RootsContent(Append(l.rootProjects, FolderKey(t), b), roots, projects')
      && ProjectsShape(l.projectFirst[b := t], roots, projects')
      && ProjectsContent(l.projectGroups[b := []], l.projectTasks[b := []], projects', groups)
    ensures GroupsContent(l.groupTasks, groups)
    ensures fresh(project) && projects' == projects[BuildFileKey(t) := project]
    ensures Extends(projects, projects')
    ensures forall k :: k in projects' && k !in projects ==> k == BuildFileKey(t)
  {
    var b := BuildFileKey(t);
    project := new TreeItemWithTasksOrGroups.Project(t.definition.project, RootProjectElem(root), Some(b));
    ProjectsShapeAdd(l.projectFirst, roots, projects, t, project);
    ProjectsContentAdd(l.projectGroups, l.projectTasks, projects, groups, b, project);
    AddProjectToRoot(l.rootProjects, roots, projects, FolderKey(t), root, b, project,
      l.projectGroups[b := []], l.projectTasks[b := []], l.groupTasks, groups);
    projects' := projects[b := project];
    ExtendsAdd(projects, b, project);
  }

  /** The project item of the task's build file, made and added to its root unless there is one. */
  method EnsureProject(t: Task, ghost l: Layout, root: RootProjectTreeItem,
    roots: map<string, RootProjectTreeItem>, projects: map<string, TreeItemWithTasksOrGroups>,
    ghost groups: map<string, TreeItemWithTasksOrGroups>)
    returns (project: TreeItemWithTasksOrGroups, projects': map<string, TreeItemWithTasksOrGroups>)
    requires FolderKey(t) in roots && root == roots[FolderKey(t)] && Injective(roots)
    requires RootsContent(l.rootProjects, roots, projects)
    requires ProjectsShape(l.projectFirst, roots, projects)
    requires ProjectsContent(l.projectGroups, l.projectTasks, projects, groups)
    requires GroupsContent(l.groupTasks, groups)
    modifies root
    ensures RootsContent(WithProject(l, t).rootProjects, roots, projects')
    ensures ProjectsShape(WithProject(l, t).projectFirst, roots, projects')
    ensures ProjectsContent(WithProject(l, t).projectGroups, WithProject(l, t).projectTasks, projects', groups)
    ensures GroupsContent(l.groupTasks, groups)
    ensures BuildFileKey(t) in projects' && project == projects'[BuildFileKey(t)]
    ensures Extends(projects, projects')
    ensures forall k :: k in projects' && k !in projects ==> k == BuildFileKey(t)
    ensures BuildFileKey(t) !in projects ==> fresh(project)
  {
    var b := BuildFileKey(t);
    if b in projects {
      project, projects' := projects[b], projects;
    } else {
      project, projects' := NewProject(t, l, root, roots, projects, groups);
    }
  }

  /** The group items keep their parents when the project map only gains entries. */
  lemma GroupsShapeProjectsExtend(gf: map<string, Task>, projects: map<string, TreeItemWithTasksOrGroups>,
    projects': map<string, TreeItemWithTasksOrGroups>, groups: map<string, TreeItemWithTasksOrGroups>)
    requires GroupsShape(gf, projects, groups) && Extends(projects, projects')
    ensures GroupsShape(gf, projects', groups)
  {
  }

  /** The task items keep their parents when the project and group maps only gain entries. */
  lemma TaskIdsRepExtend(ids: map<string, Task>, collapsed: bool, tasks: map<string, GradleTaskTreeItem>,
    projects: map<string, TreeItemWithTasksOrGroups>, projects': map<string, TreeItemWithTasksOrGroups>,
    groups: map<string, TreeItemWithTasksOrGroups>, groups': map<string, TreeItemWithTasksOrGroups>)
    requires TaskIdsRep(ids, collapsed, tasks, projects, groups) && Extends(projects, projects') && Extends(groups, groups')
    ensures TaskIdsRep(ids, collapsed, tasks, projects', groups')
  {
  }

  /** A new group item, for a group key not seen before, under the project of the task's build file. */
  lemma GroupsShapeAdd(gf: map<string, Task>, projects: map<string, TreeItemWithTasksOrGroups>,
    groups: map<string, TreeItemWithTasksOrGroups>, t: Task, group: TreeItemWithTasksOrGroups)
    requires GroupsShape(gf, projects, groups) && GroupKey(t) !in groups && group !in groups.Values
    requires group.kind == GroupKind && group.name == t.definition.group && group.resourceUri == None
    requires BuildFileKey(t) in projects && group.parent == ContainerElem(projects[BuildFileKey(t)])
    ensures GroupsShape(gf[GroupKey(t) := t], projects, groups[GroupKey(t) := group])
  {
    InjectiveAdd(groups, GroupKey(t), group);
  }

  /** A new group item lists no tasks and no groups yet. */
  lemma GroupsContentAdd(gt: map<string, seq<Task>>, groups: map<string, TreeItemWithTasksOrGroups>,
    g: string, group: TreeItemWithTasksOrGroups)
    requires GroupsContent(gt, groups) && g !in groups && group.groups == [] && group.tasks == []
    ensures GroupsContent(gt[g := []], groups[g := group])
  {
  }

  /** `addGroup` on a project item; the root items and the group items are left as they were. */
  method ProjectAddGroup(project: TreeItemWithTasksOrGroups, group: TreeItemWithTasksOrGroups,
    ghost rp: map<string, seq<string>>, ghost roots: map<string, RootProjectTreeItem>,
    ghost projects: map<string, TreeItemWithTasksOrGroups>,
    ghost gt: map<string, seq<Task>>, ghost groups: map<string, TreeItemWithTasksOrGroups>)
    requires project.kind == ProjectKind && forall k :: k in groups ==> groups[k].kind == GroupKind
    requires RootsContent(rp, roots, projects) && GroupsContent(gt, groups)
    modifies project
    ensures project.groups == old(project.groups) + [group] && project.tasks == old(project.tasks)
    ensures RootsContent(rp, roots, projects) && GroupsContent(gt, groups)
  {
    project.AddGroup(group);
  }

  /**
   * `addGroup` on the project item of build file `b`: it lists the new group
   * item after its others, and the root and group items are untouched.
   */
  method AddGroupToProject(ghost pg: map<string, seq<string>>, ghost pt: map<string, seq<Task>>,
    ghost projects: map<string, TreeItemWithTasksOrGroups>, ghost b: string, project: TreeItemWithTasksOrGroups,
    ghost groups: map<string, TreeItemWithTasksOrGroups>, ghost g: string, group: TreeItemWithTasksOrGroups,
    ghost gt: map<string, seq<Task>>, ghost rp: map<string, seq<string>>, ghost roots: map<string, RootProjectTreeItem>)
    requires ProjectsContent(pg, pt, projects, groups) && b in projects && project == projects[b] && g !in groups
    requires forall k :: k in projects ==> projects[k].kind == ProjectKind && projects[k].resourceUri == Some(k)
    requires GroupsContent(gt, groups[g := group])
    requires group.kind == GroupKind && forall k :: k in groups ==> groups[k].kind == GroupKind
    requires RootsContent(rp, roots, projects)
    modifies project
    ensures ProjectsContent(Append(pg, b, g), pt, projects, groups[g := group])
    ensures GroupsContent(gt, groups[g := group]) && RootsContent(rp, roots, projects)
  {
    ghost var lists := map k | k in projects :: projects[k].groups;
    ghost var taskLists := map k | k in projects :: projects[k].tasks;
    ProjectAddGroup(project, group, rp, roots, projects, gt, groups[g := group]);
    ghost var pg', groups' := Append(pg, b, g), groups[g := group];
    forall k | k in projects
      ensures Lists(projects[k].groups, groups', pg'[k]) && ListsTasks(projects[k].tasks, projects[k], pt[k])
    {
      ListsExtend(lists[k], groups, groups', pg[k]);
      if k == b {
        ListsSnoc(lists[k], groups', pg[k], g);
      } else {
        assert projects[k] != project;
      }
      assert projects[k].tasks == taskLists[k];
    }
  }

  /** A new group item for the task's group key, added to its project. */
  method NewGroup(t: Task, ghost l: Layout, ghost roots: map<string, RootProjectTreeItem>,
    project: TreeItemWithTasksOrGroups, ghost projects: map<string, TreeItemWithTasksOrGroups>,
    groups: map<string, TreeItemWithTasksOrGroups>)
    returns (group: TreeItemWithTasksOrGroups, groups': map<string, TreeItemWithTasksOrGroups>)
    requires BuildFileKey(t) in projects && project == projects[BuildFileKey(t)] && GroupKey(t) !in groups
    requires forall k :: k in projects ==> projects[k].kind == ProjectKind && projects[k].resourceUri == Some(k)
    requires RootsContent(l.rootProjects, roots, projects)
    requires ProjectsContent(l.projectGroups, l.projectTasks, projects, groups)
    requires GroupsShape(l.groupFirst, projects, groups) && GroupsContent(l.groupTasks, groups)
    modifies project
    ensures RootsContent(l.rootProjects, roots, projects)
    ensures var g := GroupKey(t);
      && ProjectsContent(Append(l.projectGroups, BuildFileKey(t), g), l.projectTasks, projects, groups')
      && GroupsShape(l.groupFirst[g := t], projects, groups')
      && GroupsContent(l.groupTasks[g := []], groups')
    ensures fresh(group) && groups' == groups[GroupKey(t) := group]
    ensures Extends(groups, groups')
    ensures forall k :: k in groups' && k !in groups ==> k == GroupKey(t)
  {
    var g := GroupKey(t);
    group := new TreeItemWithTasksOrGroups.Group(t.definition.group, ContainerElem(project), None);
    GroupsShapeAdd(l.groupFirst, projects, groups, t, group);
    GroupsContentAdd(l.groupTasks, groups, g, group);
    AddGroupToProject(l.projectGroups, l.projectTasks, projects, BuildFileKey(t), project,
      groups, g, group, l.groupTasks[g := []], l.rootProjects, roots);
    groups' := groups[g := group];
    ExtendsAdd(groups, g, group);
  }

  /** The group item of the task's group key, made and added to its project unless there is one. */
  method EnsureGroup(t: Task, ghost l: Layout, ghost roots: map<string, RootProjectTreeItem>,
    project: TreeItemWithTasksOrGroups, ghost projects: map<string, TreeItemWithTasksOrGroups>,
    groups: map<string, TreeItemWithTasksOrGroups>)
    returns (group: TreeItemWithTasksOrGroups, groups': map<string, TreeItemWithTasksOrGroups>)
    requires BuildFileKey(t) in projects && project == projects[BuildFileKey(t)]
    requires forall k :: k in projects ==> projects[k].kind == ProjectKind && projects[k].resourceUri == Some(k)
    requires RootsContent(l.rootProjects, roots, projects)
    requires ProjectsContent(l.projectGroups, l.projectTasks, projects, groups)
    requires GroupsShape(l.groupFirst, projects, groups) && GroupsContent(l.groupTasks, groups)
    modifies project
    ensures RootsContent(l.rootProjects, roots, projects)
    ensures ProjectsContent(WithGroup(l, t).projectGroups, l.projectTasks, projects, groups')
    ensures GroupsShape(WithGroup(l, t).groupFirst, projects, groups')
    ensures GroupsContent(WithGroup(l, t).groupTasks, groups')
    ensures GroupKey(t) in groups' && group == groups'[GroupKey(t)]
    ensures Extends(groups, groups')
    ensures forall k :: k in groups' && k !in groups ==> k == GroupKey(t)
    ensures GroupKey(t) !in groups ==> fresh(group)
  {
    var g := GroupKey(t);
    if g in groups {
      group, groups' := groups[g], groups;
    } else {
      group, groups' := NewGroup(t, l, roots, project, projects, groups);
    }
  }

  /** `addTask` on a project item; the root items and the group items are left as they were. */
  method ProjectAddTask(project: TreeItemWithTasksOrGroups, item: GradleTaskTreeItem,
    ghost rp: map<string, seq<string>>, ghost roots: map<string, RootProjectTreeItem>,
    ghost projects: map<string, TreeItemWithTasksOrGroups>,
    ghost gt: map<string, seq<Task>>, ghost groups: map<string, TreeItemWithTasksOrGroups>)
    requires project.kind == ProjectKind && forall k :: k in groups ==> groups[k].kind == GroupKind
    requires RootsContent(rp, roots, projects) && GroupsContent(gt, groups)
    modifies project
    ensures project.tasks == old(project.tasks) + [item] && project.groups == old(project.groups)
    ensures RootsContent(rp, roots, projects) && GroupsContent(gt, groups)
  {
    project.AddTask(item);
  }

  /** `addTask` on a group item; the root items and the project items are left as they were. */
  method GroupAddTask(group: TreeItemWithTasksOrGroups, item: GradleTaskTreeItem,
    ghost rp: map<string, seq<string>>, ghost roots: map<string, RootProjectTreeItem>,
    ghost pg: map<string, seq<string>>, ghost pt: map<string, seq<Task>>,
    ghost projects: map<string, TreeItemWithTasksOrGroups>, ghost groups: map<string, TreeItemWithTasksOrGroups>)
    requires group.kind == GroupKind && forall k :: k in projects ==> projects[k].kind == ProjectKind
    requires RootsContent(rp, roots, projects) && ProjectsContent(pg, pt, projects, groups)
    modifies group
    ensures group.tasks == old(group.tasks) + [item] && group.groups == old(group.groups)
    ensures RootsContent(rp, roots, projects) && ProjectsContent(pg, pt, projects, groups)
  {
    group.AddTask(item);
  }

  /** The project item of build file `b` lists the task's item after its others. */
  method AddTaskToProject(t: Task, ghost b: string, project: TreeItemWithTasksOrGroups,
    ghost rp: map<string, seq<string>>, ghost roots: map<string, RootProjectTreeItem>,
    ghost pg: map<string, seq<string>>, ghost pt: map<string, seq<Task>>, ghost projects: map<string, TreeItemWithTasksOrGroups>,
    ghost gt: map<string, seq<Task>>, ghost groups: map<string, TreeItemWithTasksOrGroups>)
    requires b in projects && project == projects[b]
    requires forall k :: k in projects ==> projects[k].kind == ProjectKind && projects[k].resourceUri == Some(k)
    requires forall k :: k in groups ==> groups[k].kind == GroupKind
    requires RootsContent(rp, roots, projects) && ProjectsContent(pg, pt, projects, groups) && GroupsContent(gt, groups)
    modifies project
    ensures RootsContent(rp, roots, projects) && ProjectsContent(pg, Append(pt, b, t), projects, groups)
    ensures GroupsContent(gt, groups)
  {
    ProjectAddTask(project, TaskItemOf(project, t), rp, roots, projects, gt, groups);
    ghost var pt' := Append(pt, b, t);
    forall k | k in projects
      ensures Lists(projects[k].groups, groups, pg[k]) && ListsTasks(projects[k].tasks, projects[k], pt'[k])
    {
      if k == b {
        ListsTasksSnoc(old(project.tasks), project, pt[k], t);
      } else {
        assert projects[k] != project;
      }
      assert projects[k].groups == old(projects[k].groups);
    }
  }

  /** The group item of key `g` lists the task's item after its others. */
  method AddTaskToGroup(t: Task, ghost g: string, group: TreeItemWithTasksOrGroups,
    ghost rp: map<string, seq<string>>, ghost roots: map<string, RootProjectTreeItem>,
    ghost pg: map<string, seq<string>>, ghost pt: map<string, seq<Task>>, ghost projects: map<string, TreeItemWithTasksOrGroups>,
    ghost gt: map<string, seq<Task>>, ghost groups: map<string, TreeItemWithTasksOrGroups>)
    requires g in groups && group == groups[g] && Injective(groups)
    requires forall k :: k in projects ==> projects[k].kind == ProjectKind
    requires forall k :: k in groups ==> groups[k].kind == GroupKind
    requires RootsContent(rp, roots, projects) && ProjectsContent(pg, pt, projects, groups) && GroupsContent(gt, groups)
    modifies group
    ensures RootsContent(rp, roots, projects) && ProjectsContent(pg, pt, projects, groups)
    ensures GroupsContent(Append(gt, g, t), groups)
  {
    ghost var lists := map k | k in groups :: groups[k].tasks;
    ghost var groupLists := map k | k in groups :: groups[k].groups;
    GroupAddTask(group, TaskItemOf(group, t), rp, roots, pg, pt, projects, groups);
    ghost var gt' := Append(gt, g, t);
    forall k | k in groups
      ensures groups[k].groups == [] && ListsTasks(groups[k].tasks, groups[k], gt'[k])
    {
      if k == g {
        ListsTasksSnoc(lists[k], group, gt[k], t);
      } else {
        assert groups[k] != group;
      }
      assert groups[k].groups == groupLists[k];
    }
  }

  /** A new task item, recorded under the task's id. */
  lemma TaskIdsRepAdd(ids: map<string, Task>, collapsed: bool, tasks: map<string, GradleTaskTreeItem>,
    projects: map<string, TreeItemWithTasksOrGroups>, groups: map<string, TreeItemWithTasksOrGroups>, t: Task)
    requires TaskIdsRep(ids, collapsed, tasks, projects, groups) && ParentKnown(t, collapsed, projects, groups)
    ensures TaskIdsRep(ids[IdKey(t) := t], collapsed,
      tasks[IdKey(t) := TaskItemOf(ParentOf(t, collapsed, projects, groups), t)], projects, groups)
  {
  }

  /**
   * The task's item: named after the task, described by its description or
   * else its name, recorded under the task's id and added to `parent`, the
   * item of its project or group.
   */
  method AddTaskItem(t: Task, ghost l: Layout, collapsed: bool, parent: TreeItemWithTasksOrGroups,
    ghost roots: map<string, RootProjectTreeItem>, ghost projects: map<string, TreeItemWithTasksOrGroups>,
    ghost groups: map<string, TreeItemWithTasksOrGroups>, tasks: map<string, GradleTaskTreeItem>)
    returns (tasks': map<string, GradleTaskTreeItem>)
    requires ParentKnown(t, collapsed, projects, groups) && parent == ParentOf(t, collapsed, projects, groups)
    requires forall k :: k in projects ==> projects[k].kind == ProjectKind && projects[k].resourceUri == Some(k)
    requires forall k :: k in groups ==> groups[k].kind == GroupKind
    requires Injective(groups)
    requires RootsContent(l.rootProjects, roots, projects)
    requires ProjectsContent(l.projectGroups, l.projectTasks, projects, groups) && GroupsContent(l.groupTasks, groups)
    requires TaskIdsRep(l.taskIds, collapsed, tasks, projects, groups)
    modifies parent
    ensures RootsContent(l.rootProjects, roots, projects)
    ensures ProjectsContent(l.projectGroups, WithTask(l, t, collapsed).projectTasks, projects, groups)
    ensures GroupsContent(WithTask(l, t, collapsed).groupTasks, groups)
    ensures TaskIdsRep(WithTask(l, t, collapsed).taskIds, collapsed, tasks', projects, groups)
  {
    var taskName := TaskName(t.definition.script);
    var item := GradleTaskTreeItem(parent, t, taskName, if t.definition.description == "" then taskName else t.definition.description);
    TaskIdsRepAdd(l.taskIds, collapsed, tasks, projects, groups, t);
    tasks' := tasks[IdKey(t) := item];
    if collapsed {
      AddTaskToProject(t, BuildFileKey(t), parent, l.rootProjects, roots,
        l.projectGroups, l.projectTasks, projects, l.groupTasks, groups);
    } else {
      AddTaskToGroup(t, GroupKey(t), parent, l.rootProjects, roots,
        l.projectGroups, l.projectTasks, projects, l.groupTasks, groups);
    }
  }

  /** The root project item of the task's folder, made where missing. */
  method PlaceRoot(t: Task, ghost l: Layout, ghost collapsed: bool, store: map<string, RootProject>, basename: string -> string,
    order: seq<string>, roots: map<string, RootProjectTreeItem>, ghost projects: map<string, TreeItemWithTasksOrGroups>,
    ghost groups: map<string, TreeItemWithTasksOrGroups>, ghost tasks: map<string, GradleTaskTreeItem>)
    returns (order': seq<string>, roots': map<string, RootProjectTreeItem>, root: RootProjectTreeItem)
    requires FolderKey(t) in store
    requires Rep(l, collapsed, order, roots, projects, groups, tasks, store, basename)
    ensures FolderKey(t) in roots' && root == roots'[FolderKey(t)]
    ensures Extends(roots, roots') && forall k :: k in roots' && k !in roots ==> fresh(roots'[k])
    ensures forall k :: k in roots' && k !in roots ==> k == FolderKey(t)
    ensures Rep(WithRoot(l, t), collapsed, order', roots', projects, groups, tasks, store, basename)
  {
    root, roots', order' := EnsureRoot(t, l, roots, order, projects, store, basename);
    ProjectsShapeRootsExtend(l.projectFirst, roots, roots', projects);
  }

  /** The project item of the task's build file, made where missing. */
  method PlaceProject(t: Task, ghost l: Layout, ghost collapsed: bool, ghost store: map<string, RootProject>, ghost basename: string -> string,
    ghost order: seq<string>, roots: map<string, RootProjectTreeItem>, root: RootProjectTreeItem,
    projects: map<string, TreeItemWithTasksOrGroups>,
    ghost groups: map<string, TreeItemWithTasksOrGroups>, ghost tasks: map<string, GradleTaskTreeItem>)
    returns (projects': map<string, TreeItemWithTasksOrGroups>, project: TreeItemWithTasksOrGroups)
    requires Rep(l, collapsed, order, roots, projects, groups, tasks, store, basename)
    requires FolderKey(t) in roots && root == roots[FolderKey(t)]
    modifies root
    ensures BuildFileKey(t) in projects' && project == projects'[BuildFileKey(t)]
    ensures Extends(projects, projects') && forall k :: k in projects' && k !in projects ==> fresh(projects'[k])
    ensures forall k :: k in projects' && k !in projects ==> k == BuildFileKey(t)
    ensures Rep(WithProject(l, t), collapsed, order, roots, projects', groups, tasks, store, basename)
  {
    project, projects' := EnsureProject(t, l, root, roots, projects, groups);
    GroupsShapeProjectsExtend(l.groupFirst, projects, projects', groups);
    TaskIdsRepExtend(l.taskIds, collapsed, tasks, projects, projects', groups, groups);
  }

  /** The group item of the task's group key, made where missing. */
  method PlaceGroup(t: Task, ghost l: Layout, ghost collapsed: bool, ghost store: map<string, RootProject>, ghost basename: string -> string,
    ghost order: seq<string>, ghost roots: map<string, RootProjectTreeItem>,
    projects: map<string, TreeItemWithTasksOrGroups>, project: TreeItemWithTasksOrGroups,
    groups: map<string, TreeItemWithTasksOrGroups>, ghost tasks: map<string, GradleTaskTreeItem>)
    returns (groups': map<string, TreeItemWithTasksOrGroups>, group: TreeItemWithTasksOrGroups)
    requires Rep(l, collapsed, order, roots, projects, groups, tasks, store, basename)
    requires BuildFileKey(t) in projects && project == projects[BuildFileKey(t)]
    modifies project
    ensures GroupKey(t) in groups' && group == groups'[GroupKey(t)]
    ensures Extends(groups, groups') && forall k :: k in groups' && k !in groups ==> fresh(groups'[k])
    ensures forall k :: k in groups' && k !in groups ==> k == GroupKey(t)
    ensures Rep(WithGroup(l, t), collapsed, order, roots, projects, groups', tasks, store, basename)
  {
    group, groups' := EnsureGroup(t, l, roots, project, projects, groups);
    TaskIdsRepExtend(l.taskIds, collapsed, tasks, projects, projects, groups, groups');
  }

  /** The task's own item, added under `parent`, the item of its project or group. */
  method PlaceItem(t: Task, ghost l: Layout, collapsed: bool, ghost store: map<string, RootProject>, ghost basename: string -> string,
    ghost order: seq<string>, ghost roots: map<string, RootProjectTreeItem>,
    ghost projects: map<string, TreeItemWithTasksOrGroups>, ghost groups: map<string, TreeItemWithTasksOrGroups>,
    parent: TreeItemWithTasksOrGroups, tasks: map<string, GradleTaskTreeItem>)
    returns (tasks': map<string, GradleTaskTreeItem>)
    requires Rep(l, collapsed, order, roots, projects, groups, tasks, store, basename)
    requires ParentKnown(t, collapsed, projects, groups) && parent == ParentOf(t, collapsed, projects, groups)
    modifies parent
    ensures Rep(WithTask(l, t, collapsed), collapsed, order, roots, projects, groups, tasks', store, basename)
  {
    tasks' := AddTaskItem(t, l, collapsed, parent, roots, projects, groups, tasks);
  }

  /** The task's root project item, if there is one yet: the only one its turn of the loop changes. */
  function RootOf(t: Task, roots: map<string, RootProjectTreeItem>): set<RootProjectTreeItem>
  {
    if FolderKey(t) in roots then {roots[FolderKey(t)]} else {}
  }

  /** The task's project item, if there is one yet. */
  function ProjectOf(t: Task, projects: map<string, TreeItemWithTasksOrGroups>): set<TreeItemWithTasksOrGroups>
  {
    if BuildFileKey(t) in projects then {projects[BuildFileKey(t)]} else {}
  }

  /** The task's group item, if there is one yet. */
  function GroupOf(t: Task, groups: map<string, TreeItemWithTasksOrGroups>): set<TreeItemWithTasksOrGroups>
  {
    if GroupKey(t) in groups then {groups[GroupKey(t)]} else {}
  }

  /** The root and project items of the task, made where missing. */
  method PlaceContainers(t: Task, ghost l: Layout, ghost collapsed: bool, store: map<string, RootProject>, basename: string -> string,
    order: seq<string>, roots: map<string, RootProjectTreeItem>, projects: map<string, TreeItemWithTasksOrGroups>,
    ghost groups: map<string, TreeItemWithTasksOrGroups>, ghost tasks: map<string, GradleTaskTreeItem>)
    returns (order': seq<string>, roots': map<string, RootProjectTreeItem>, projects': map<string, TreeItemWithTasksOrGroups>,
      project: TreeItemWithTasksOrGroups)
    requires FolderKey(t) in store
    requires Rep(l, collapsed, order, roots, projects, groups, tasks, store, basename)
    modifies RootOf(t, roots)
    ensures BuildFileKey(t) in projects' && project == projects'[BuildFileKey(t)]
    ensures Extends(roots, roots') && forall k :: k in roots' && k !in roots ==> fresh(roots'[k])
    ensures Extends(projects, projects') && forall k :: k in projects' && k !in projects ==> fresh(projects'[k])
    ensures forall k :: k in roots' && k !in roots ==> k == FolderKey(t)
    ensures forall k :: k in projects' && k !in projects ==> k == BuildFileKey(t)
    ensures Rep(WithProject(WithRoot(l, t), t), collapsed, order', roots', projects', groups, tasks, store, basename)
  {
    var root;
    order', roots', root := PlaceRoot(t, l, collapsed, store, basename, order, roots, projects, groups, tasks);
    projects', project := PlaceProject(t, WithRoot(l, t), collapsed, store, basename, order', roots', root, projects, groups, tasks);
  }

  /** The item the task goes under: its project item when collapsed, else its group item, made where missing. */
  method PlaceParent(t: Task, ghost l: Layout, collapsed: bool, ghost store: map<string, RootProject>, ghost basename: string -> string,
    ghost order: seq<string>, ghost roots: map<string, RootProjectTreeItem>,
    projects: map<string, TreeItemWithTasksOrGroups>, project: TreeItemWithTasksOrGroups,
    groups: map<string, TreeItemWithTasksOrGroups>, ghost tasks: map<string, GradleTaskTreeItem>)
    returns (groups': map<string, TreeItemWithTasksOrGroups>, parent: TreeItemWithTasksOrGroups)
    requires Rep(l, collapsed, order, roots, projects, groups, tasks, store, basename)
    requires BuildFileKey(t) in projects && project == projects[BuildFileKey(t)]
    modifies project
    ensures ParentKnown(t, collapsed, projects, groups') && parent == ParentOf(t, collapsed, projects, groups')
    ensures Extends(groups, groups') && forall k :: k in groups' && k !in groups ==> fresh(groups'[k])
    ensures forall k :: k in groups' && k !in groups ==> k == GroupKey(t)
    ensures Rep(WithParent(l, t, collapsed), collapsed, order, roots, projects, groups', tasks, store, basename)
  {
    if collapsed {
      groups', parent := groups, project;
    } else {
      groups', parent := PlaceGroup(t, l, collapsed, store, basename, order, roots, projects, project, groups, tasks);
    }
  }

  /** The item the task goes under, made where missing, and the task's item under it. */
  method PlaceUnder(t: Task, ghost l: Layout, collapsed: bool, ghost store: map<string, RootProject>, ghost basename: string -> string,
    ghost order: seq<string>, ghost roots: map<string, RootProjectTreeItem>,
    projects: map<string, TreeItemWithTasksOrGroups>, project: TreeItemWithTasksOrGroups,
    groups: map<string, TreeItemWithTasksOrGroups>, tasks: map<string, GradleTaskTreeItem>)
    returns (groups': map<string, TreeItemWithTasksOrGroups>, tasks': map<string, GradleTaskTreeItem>)
    requires Rep(l, collapsed, order, roots, projects, groups, tasks, store, basename)
    requires BuildFileKey(t) in projects && project == projects[BuildFileKey(t)]
    modifies ProjectOf(t, projects), GroupOf(t, groups)
    ensures Extends(groups, groups') && forall k :: k in groups' && k !in groups ==> fresh(groups'[k])
    ensures forall k :: k in groups' && k !in groups ==> k == GroupKey(t)
    ensures Rep(WithTask(WithParent(l, t, collapsed), t, collapsed), collapsed, order, roots, projects, groups', tasks', store, basename)
  {
    var parent;
    groups', parent := PlaceParent(t, l, collapsed, store, basename, order, roots, projects, project, groups, tasks);
    ghost var l3 := WithParent(l, t, collapsed);
    tasks' := PlaceItem(t, l3, collapsed, store, basename, order, roots, projects, groups', parent, tasks);
  }

  /**
   * One turn of the loop of `buildItemsTreeFromTasks` on an accepted task:
   * the root, project and (unless collapsed) group items it needs, made
   * where missing, and its own item added under its project or group.
   */
  method PlaceTask(t: Task, ghost l: Layout, collapsed: bool, store: map<string, RootProject>, basename: string -> string,
    order: seq<string>, roots: map<string, RootProjectTreeItem>, projects: map<string, TreeItemWithTasksOrGroups>,
    groups: map<string, TreeItemWithTasksOrGroups>, tasks: map<string, GradleTaskTreeItem>)
    returns (order': seq<string>, roots': map<string, RootProjectTreeItem>, projects': map<string, TreeItemWithTasksOrGroups>,
      groups': map<string, TreeItemWithTasksOrGroups>, tasks': map<string, GradleTaskTreeItem>)
    requires FolderKey(t) in store
    requires Rep(l, collapsed, order, roots, projects, groups, tasks, store, basename)
    modifies RootOf(t, roots), ProjectOf(t, projects), GroupOf(t, groups)
    ensures Extends(roots, roots') && forall k :: k in roots' && k !in roots ==> fresh(roots'[k])
    ensures Extends(projects, projects') && forall k :: k in projects' && k !in projects ==> fresh(projects'[k])
    ensures Extends(groups, groups') && forall k :: k in groups' && k !in groups ==> fresh(groups'[k])
    ensures forall k :: k in roots' && k !in roots ==> k == FolderKey(t)
    ensures forall k :: k in projects' && k !in projects ==> k == BuildFileKey(t)
    ensures forall k :: k in groups' && k !in groups ==> k == GroupKey(t)
    ensures Rep(Step(l, t, collapsed), collapsed, order', roots', projects', groups', tasks', store, basename)
  {
    var project;
    order', roots', projects', project := PlaceContainers(t, l, collapsed, store, basename, order, roots, projects, groups, tasks);
    ghost var l2 := WithProject(WithRoot(l, t), t);
    assert Step(l, t, collapsed) == WithTask(WithParent(l2, t, collapsed), t, collapsed);
    groups', tasks' := PlaceUnder(t, l2, collapsed, store, basename, order', roots', projects', project, groups, tasks);
  }

  /** The tasks accepted among the first `i + 1` are those among the first `i`, and the next one if it is accepted. */
  lemma AcceptedSnoc(tasks: seq<Task>, i: nat, store: map<string, RootProject>)
    requires i < |tasks|
    ensures Accepted(tasks[..i + 1], store) ==
      Accepted(tasks[..i], store) + (if IsAccepted(tasks[i], store) then [tasks[i]] else [])
  {
    assert tasks[..i + 1][..i] == tasks[..i];
  }

  /** The accepted tasks after one more task. */
  ghost function AcceptStep(acc: seq<Task>, t: Task, store: map<string, RootProject>): seq<Task>
  {
    if IsAccepted(t, store) then acc + [t] else acc
  }

  /** The layout after the loop's first `i` turns, starting from `l0`. */
  ghost function LayoutAfter(l0: Layout, tasks: seq<Task>, i: nat, collapsed: bool, store: map<string, RootProject>): Layout
    requires i <= |tasks|
  {
    if i == 0 then l0
    else
      var l := LayoutAfter(l0, tasks, i - 1, collapsed, store);
      if IsAccepted(tasks[i - 1], store) then Step(l, tasks[i - 1], collapsed) else l
  }

  /** The tasks accepted after `prev` among the first `i + 1` of `tasks`, one task at a time. */
  lemma AcceptedPrefix(prev: seq<Task>, tasks: seq<Task>, i: nat, store: map<string, RootProject>)
    requires i < |tasks|
    ensures prev + Accepted(tasks[..i + 1], store) == AcceptStep(prev + Accepted(tasks[..i], store), tasks[i], store)
  {
    AcceptedSnoc(tasks, i, store);
    var a := Accepted(tasks[..i], store);
    if IsAccepted(tasks[i], store) {
      assert prev + (a + [tasks[i]]) == (prev + a) + [tasks[i]];
    } else {
      assert a + [] == a;
    }
  }

  /** Turn by turn, the loop builds the layout of the tasks it accepts. */
  lemma {:induction false} LayoutAfterAccepted(prev: seq<Task>, tasks: seq<Task>, i: nat, collapsed: bool, store: map<string, RootProject>)
    requires i <= |tasks|
    ensures LayoutAfter(LayoutOf(prev, collapsed), tasks, i, collapsed, store) == LayoutOf(prev + Accepted(tasks[..i], store), collapsed)
  {
    if i == 0 {
      assert tasks[..0] == [];
      assert prev + Accepted(tasks[..0], store) == prev;
    } else {
      LayoutAfterAccepted(prev, tasks, i - 1, collapsed, store);
      AcceptedPrefix(prev, tasks, i - 1, store);
      var acc := prev + Accepted(tasks[..i - 1], store);
      if IsAccepted(tasks[i - 1], store) {
        LayoutStep(acc, tasks[i - 1], collapsed);
      }
    }
  }

  /** Empty maps hold the layout of no tasks. */
  lemma EmptyRep(collapsed: bool, store: map<string, RootProject>, basename: string -> string)
    ensures Rep(LayoutOf([], collapsed), collapsed, [], map[], map[], map[], map[], store, basename)
  {
    assert Keys([], FolderKey) == [];
  }

  /** The entries of `m` under the keys of `order`, in order: the values of a JavaScript `Map` in insertion order. */
  function InOrder<V>(order: seq<string>, m: map<string, V>): (vs: seq<V>)
    requires forall k :: k in order ==> k in m
    ensures |vs| == |order| && forall i :: 0 <= i < |order| ==> vs[i] == m[order[i]]
  {
    if order == [] then [] else [m[order[0]]] + InOrder(order[1..], m)
  }
}
