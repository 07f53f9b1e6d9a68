/**
 * What the older task view shows once `buildTaskTree` has filled its maps:
 * which items each folder, project and group item lists, which item
 * `getParent` names for each, and what the top level is, all in terms of the
 * placed tasks.
 */
module GradleViewFacts {
  import opened Wrappers
  import opened Collation
  import opened TaskDefinitions
  import opened TreeItems
  import opened TaskTreeSpec
  import opened TasksTreeProvider
  import opened GradleViewSpec
  import opened GradleView
  import opened GradleViewProvider
  import TasksTreeFacts

  /** The folder items and what they list, taken apart. */
  lemma UnpackFolders(acc: seq<Task>, collapsed: bool, order: seq<string>, ws: map<string, WorkspaceTreeItem>,
    nested: map<string, WorkspaceTreeItem>, projects: map<string, TreeItemWithTasksOrGroups>,
    groups: map<string, TreeItemWithTasksOrGroups>)
    requires ViewRep(ViewOf(acc, collapsed), collapsed, order, ws, nested, projects, groups)
    ensures order == Dedup(Keys(acc, ScopeName))
    ensures FoldersShape(order, FirstMap(acc, ScopeName), ws)
    ensures Apart(ws, nested)
    ensures FoldersContent(TopFolders(acc), TopProjects(acc, collapsed), ws, nested, projects)
    ensures NestedShape(FirstMap(NestedTasks(acc), RelativePath), ws, nested)
    ensures NestedContent(NestedProjects(acc, collapsed), nested, projects)
  {
    var l := ViewOf(acc, collapsed);
    assert FolderRep(l, order, ws, nested, projects);
  }

  /** The project and group items, taken apart. */
  lemma UnpackItems(acc: seq<Task>, collapsed: bool, order: seq<string>, ws: map<string, WorkspaceTreeItem>,
    nested: map<string, WorkspaceTreeItem>, projects: map<string, TreeItemWithTasksOrGroups>,
    groups: map<string, TreeItemWithTasksOrGroups>)
    requires ViewRep(ViewOf(acc, collapsed), collapsed, order, ws, nested, projects, groups)
    ensures ItemParts(ViewOf(acc, collapsed), collapsed, ws, nested, projects, groups)
  {
    assert ItemRep(ViewOf(acc, collapsed), collapsed, ws, nested, projects, groups);
  }

  /** The project items. */
  lemma UnpackProjects(acc: seq<Task>, collapsed: bool, order: seq<string>, ws: map<string, WorkspaceTreeItem>,
    nested: map<string, WorkspaceTreeItem>, projects: map<string, TreeItemWithTasksOrGroups>,
    groups: map<string, TreeItemWithTasksOrGroups>)
    requires ViewRep(ViewOf(acc, collapsed), collapsed, order, ws, nested, projects, groups)
    ensures ProjectItemsShape(FirstMap(acc, ProjectKey(collapsed)), ws, nested, projects)
  {
    UnpackItems(acc, collapsed, order, ws, nested, projects, groups);
  }

  /** The group items each project item lists. */
  lemma UnpackProjectGroups(acc: seq<Task>, collapsed: bool, order: seq<string>, ws: map<string, WorkspaceTreeItem>,
    nested: map<string, WorkspaceTreeItem>, projects: map<string, TreeItemWithTasksOrGroups>,
    groups: map<string, TreeItemWithTasksOrGroups>)
    requires ViewRep(ViewOf(acc, collapsed), collapsed, order, ws, nested, projects, groups)
    ensures projects.Keys == GroupsOf(acc, collapsed).Keys
    ensures forall k :: k in projects ==> Lists(projects[k].groups, groups, GroupsOf(acc, collapsed)[k])
  {
    UnpackItems(acc, collapsed, order, ws, nested, projects, groups);
    var l := ViewOf(acc, collapsed);
    assert ProjectItemsContent(l.projectGroups, l.projectTasks, collapsed, projects, groups);
  }

  /** The task items each project item lists. */
  lemma UnpackProjectTasks(acc: seq<Task>, collapsed: bool, order: seq<string>, ws: map<string, WorkspaceTreeItem>,
    nested: map<string, WorkspaceTreeItem>, projects: map<string, TreeItemWithTasksOrGroups>,
    groups: map<string, TreeItemWithTasksOrGroups>)
    requires ViewRep(ViewOf(acc, collapsed), collapsed, order, ws, nested, projects, groups)
    ensures forall k :: k in projects ==>
      ListsItems(projects[k].tasks, projects[k], if collapsed then Filter(acc, ProjectKey(collapsed), k) else [], collapsed)
  {
    UnpackItems(acc, collapsed, order, ws, nested, projects, groups);
    var l := ViewOf(acc, collapsed);
    assert ProjectItemsContent(l.projectGroups, l.projectTasks, collapsed, projects, groups);
    forall k | k in projects
      ensures ListsItems(projects[k].tasks, projects[k], if collapsed then Filter(acc, ProjectKey(collapsed), k) else [], collapsed)
    {
      assert ListsItems(projects[k].tasks, projects[k], l.projectTasks[k], collapsed);
    }
  }

  /** The group items and the task items they list. */
  lemma UnpackGroups(acc: seq<Task>, collapsed: bool, order: seq<string>, ws: map<string, WorkspaceTreeItem>,
    nested: map<string, WorkspaceTreeItem>, projects: map<string, TreeItemWithTasksOrGroups>,
    groups: map<string, TreeItemWithTasksOrGroups>)
    requires ViewRep(ViewOf(acc, collapsed), collapsed, order, ws, nested, projects, groups)
    ensures GroupItemsShape(if collapsed then map[] else FirstMap(acc, GroupKey), ws, nested, groups)
    ensures GroupItemsContent(if collapsed then map[] else FilterMap(acc, GroupKey), collapsed, groups)
  {
    UnpackItems(acc, collapsed, order, ws, nested, projects, groups);
  }

  /** An item listed from an injective map is listed exactly when its key is. */
  lemma ListsMember<V>(vs: seq<V>, m: map<string, V>, ks: seq<string>, k: string)
    requires Lists(vs, m, ks) && Injective(m) && k in m
    ensures m[k] in vs <==> k in ks
  {
    if m[k] in vs {
      var i :| 0 <= i < |vs| && vs[i] == m[k];
      assert m[ks[i]] == m[k];
    }
    if k in ks {
      var i :| 0 <= i < |ks| && ks[i] == k;
      assert vs[i] == m[k];
    }
  }

  /** Items named after their keys are distinct. */
  lemma ProjectsInjective(projects: map<string, TreeItemWithTasksOrGroups>)
    requires forall k :: k in projects ==> projects[k].name == k
    ensures Injective(projects)
  {
    forall j, k | j in projects && k in projects && j != k
      ensures projects[j] != projects[k]
    {
      assert projects[j].name != projects[k].name;
    }
  }

  /** Folder items named after their keys are distinct. */
  lemma FoldersInjective(folders: map<string, WorkspaceTreeItem>)
    requires forall k :: k in folders ==> folders[k].name == k
    ensures Injective(folders)
  {
    forall j, k | j in folders && k in folders && j != k
      ensures folders[j] != folders[k]
    {
      assert folders[j].name != folders[k].name;
    }
  }

  /** A folder item's parent, as `getParent` names it. */
  lemma FolderParent(w: WorkspaceTreeItem)
    ensures GetParent(WorkspaceElem(w)) == if w.parent.Some? then Some(WorkspaceElem(w.parent.value)) else None
  {
  }

  /** A project or group item's parent, as `getParent` names it. */
  lemma ContainerParent(c: TreeItemWithTasksOrGroups)
    ensures GetParent(ContainerElem(c)) == Some(c.parent)
  {
  }

  /** A task item's parent, as `getParent` names it. */
  lemma TaskItemParent(t: GradleTaskTreeItem)
    ensures GetParent(TaskElem(t)) == Some(ContainerElem(t.parent))
  {
  }

  /** The `i`th of a folder item's folders and then its projects. */
  lemma FoldersThenProjects(folders: seq<WorkspaceTreeItem>, items: seq<TreeItemWithTasksOrGroups>, i: int)
    requires 0 <= i < |WorkspaceElems(folders) + ContainerElems(items)|
    ensures var r := WorkspaceElems(folders) + ContainerElems(items);
      if i < |folders| then folders[i] in folders && r[i] == WorkspaceElem(folders[i])
      else r[i] == ContainerElem(items[i - |folders|])
  {
  }

  /**
   * One workspace folder item for each scope of the placed tasks, made in
   * the order the scopes first occur: named after the scope, pointing at its
   * folder, and without parent.
   */
  lemma WorkspaceFolderItems(acc: seq<Task>, collapsed: bool, order: seq<string>, ws: map<string, WorkspaceTreeItem>,
    nested: map<string, WorkspaceTreeItem>, projects: map<string, TreeItemWithTasksOrGroups>,
    groups: map<string, TreeItemWithTasksOrGroups>)
    requires ViewRep(ViewOf(acc, collapsed), collapsed, order, ws, nested, projects, groups)
    ensures order == Dedup(Keys(acc, ScopeName)) && |ws| == |order|
    ensures forall w :: w in ws <==> w in Keys(acc, ScopeName)
    ensures forall w :: w in ws ==>
      && ws[w].name == w
      && ws[w].resourceUri == ScopeUri(First(acc, ScopeName, w))
      && GetParent(WorkspaceElem(ws[w])) == None
  {
    UnpackFolders(acc, collapsed, order, ws, nested, projects, groups);
    TasksTreeFacts.KeysCount(ws, order);
    assert FoldersContent(TopFolders(acc), TopProjects(acc, collapsed), ws, nested, projects);
  }

  /**
   * One nested folder item for each relative path of a nested project
   * folder: named after the path, listed by the workspace folder item of the
   * first task with that path and by no other, and `getParent` names that
   * workspace folder item.
   */
  lemma NestedFolderItems(acc: seq<Task>, collapsed: bool, order: seq<string>, ws: map<string, WorkspaceTreeItem>,
    nested: map<string, WorkspaceTreeItem>, projects: map<string, TreeItemWithTasksOrGroups>,
    groups: map<string, TreeItemWithTasksOrGroups>)
    requires ViewRep(ViewOf(acc, collapsed), collapsed, order, ws, nested, projects, groups)
    ensures forall p :: p in nested <==> p in Keys(NestedTasks(acc), RelativePath)
    ensures forall p :: p in nested ==>
      var w := ScopeName(First(NestedTasks(acc), RelativePath, p));
      && nested[p].name == p
      && w in ws
      && GetParent(WorkspaceElem(nested[p])) == Some(WorkspaceElem(ws[w]))
    ensures forall p, w :: p in nested && w in ws ==>
      (nested[p] in ws[w].projectFolders <==> w == ScopeName(First(NestedTasks(acc), RelativePath, p)))
  {
    UnpackFolders(acc, collapsed, order, ws, nested, projects, groups);
    var nf := FirstMap(NestedTasks(acc), RelativePath);
    var tfo := TopFolders(acc);
    forall p | p in nested
      ensures var w := ScopeName(First(NestedTasks(acc), RelativePath, p));
        w in ws && GetParent(WorkspaceElem(nested[p])) == Some(WorkspaceElem(ws[w]))
    {
      assert nf[p] == First(NestedTasks(acc), RelativePath, p);
      FolderParent(nested[p]);
    }
    FoldersInjective(nested);
    forall p, w | p in nested && w in ws
      ensures nested[p] in ws[w].projectFolders <==> w == ScopeName(First(NestedTasks(acc), RelativePath, p))
    {
      TopFoldersMember(acc, w, p);
      ListsMember(ws[w].projectFolders, nested, tfo[w], p);
    }
  }

  /**
   * One project item for each project key of the placed tasks: named after
   * the key, and `getParent` names the folder item of the first task with
   * that key.
   */
  lemma ProjectItemParents(acc: seq<Task>, collapsed: bool, order: seq<string>, ws: map<string, WorkspaceTreeItem>,
    nested: map<string, WorkspaceTreeItem>, projects: map<string, TreeItemWithTasksOrGroups>,
    groups: map<string, TreeItemWithTasksOrGroups>)
    requires ViewRep(ViewOf(acc, collapsed), collapsed, order, ws, nested, projects, groups)
    ensures forall k :: k in projects <==> k in Keys(acc, ProjectKey(collapsed))
    ensures forall k :: k in projects ==>
      var f := First(acc, ProjectKey(collapsed), k);
      && projects[k].kind == ProjectKind
      && projects[k].name == k
      && FolderKnown(f, ws, nested)
      && GetParent(ContainerElem(projects[k])) == Some(WorkspaceElem(FolderItem(f, ws, nested)))
  {
    UnpackProjects(acc, collapsed, order, ws, nested, projects, groups);
    var pf := FirstMap(acc, ProjectKey(collapsed));
    forall k | k in projects
      ensures var f := First(acc, ProjectKey(collapsed), k);
        FolderKnown(f, ws, nested) && GetParent(ContainerElem(projects[k])) == Some(WorkspaceElem(FolderItem(f, ws, nested)))
    {
      var f := First(acc, ProjectKey(collapsed), k);
      assert pf[k] == f;
      assert projects[k].parent == WorkspaceElem(FolderItem(f, ws, nested));
      ContainerParent(projects[k]);
    }
  }

  /**
   * A project item is listed by the workspace folder item of its scope
   * exactly when the first task with its key has its project folder at the
   * workspace folder, and by no other workspace folder item.
   */
  lemma ProjectItemInWorkspace(acc: seq<Task>, collapsed: bool, order: seq<string>, ws: map<string, WorkspaceTreeItem>,
    nested: map<string, WorkspaceTreeItem>, projects: map<string, TreeItemWithTasksOrGroups>,
    groups: map<string, TreeItemWithTasksOrGroups>)
    requires ViewRep(ViewOf(acc, collapsed), collapsed, order, ws, nested, projects, groups)
    ensures forall k, w :: k in projects && w in ws ==>
      (projects[k] in ws[w].projects <==> FolderOf(First(acc, ProjectKey(collapsed), k)) == Top(w))
  {
    UnpackFolders(acc, collapsed, order, ws, nested, projects, groups);
    UnpackProjects(acc, collapsed, order, ws, nested, projects, groups);
    ProjectsInjective(projects);
    var tp := TopProjects(acc, collapsed);
    forall k, w | k in projects && w in ws
      ensures projects[k] in ws[w].projects <==> FolderOf(First(acc, ProjectKey(collapsed), k)) == Top(w)
    {
      TopProjectsMember(acc, collapsed, w, k);
      ListsMember(ws[w].projects, projects, tp[w], k);
    }
  }

  /**
   * A project item is listed by a nested folder item exactly when the first
   * task with its key has its project folder at that relative path.
   */
  lemma ProjectItemInNested(acc: seq<Task>, collapsed: bool, order: seq<string>, ws: map<string, WorkspaceTreeItem>,
    nested: map<string, WorkspaceTreeItem>, projects: map<string, TreeItemWithTasksOrGroups>,
    groups: map<string, TreeItemWithTasksOrGroups>)
    requires ViewRep(ViewOf(acc, collapsed), collapsed, order, ws, nested, projects, groups)
    ensures forall k, p :: k in projects && p in nested ==>
      (projects[k] in nested[p].projects <==> FolderOf(First(acc, ProjectKey(collapsed), k)) == Nested(p))
  {
    UnpackFolders(acc, collapsed, order, ws, nested, projects, groups);
    UnpackProjects(acc, collapsed, order, ws, nested, projects, groups);
    ProjectsInjective(projects);
    var np := NestedProjects(acc, collapsed);
    forall k, p | k in projects && p in nested
      ensures projects[k] in nested[p].projects <==> FolderOf(First(acc, ProjectKey(collapsed), k)) == Nested(p)
    {
      NestedProjectsMember(acc, collapsed, p, k);
      ListsMember(nested[p].projects, projects, np[p], k);
    }
  }

  /**
   * A collapsed view makes no group items. Otherwise there is one for each
   * group key, named after the group, and `getParent` names the folder item
   * of the first task with that key: a folder item, never a project item.
   */
  lemma GroupItemParents(acc: seq<Task>, collapsed: bool, order: seq<string>, ws: map<string, WorkspaceTreeItem>,
    nested: map<string, WorkspaceTreeItem>, projects: map<string, TreeItemWithTasksOrGroups>,
    groups: map<string, TreeItemWithTasksOrGroups>)
    requires ViewRep(ViewOf(acc, collapsed), collapsed, order, ws, nested, projects, groups)
    ensures forall g :: g in groups <==> !collapsed && g in Keys(acc, GroupKey)
    ensures forall g :: g in groups ==>
      var f := First(acc, GroupKey, g);
      && groups[g].kind == GroupKind
      && groups[g].name == f.definition.group
      && FolderKnown(f, ws, nested)
      && GetParent(ContainerElem(groups[g])) == Some(WorkspaceElem(FolderItem(f, ws, nested)))
  {
    UnpackGroups(acc, collapsed, order, ws, nested, projects, groups);
    forall g | g in groups
      ensures var f := First(acc, GroupKey, g);
        && groups[g].name == f.definition.group
        && FolderKnown(f, ws, nested)
        && GetParent(ContainerElem(groups[g])) == Some(WorkspaceElem(FolderItem(f, ws, nested)))
    {
      assert !collapsed;
      var f := First(acc, GroupKey, g);
      assert FirstMap(acc, GroupKey)[g] == f;
      assert groups[g].parent == WorkspaceElem(FolderItem(f, ws, nested));
      ContainerParent(groups[g]);
    }
  }

  /**
   * A group item is listed by the project item of the first task with its
   * key, and by no other project item.
   */
  lemma GroupItemListed(acc: seq<Task>, collapsed: bool, order: seq<string>, ws: map<string, WorkspaceTreeItem>,
    nested: map<string, WorkspaceTreeItem>, projects: map<string, TreeItemWithTasksOrGroups>,
    groups: map<string, TreeItemWithTasksOrGroups>)
    requires ViewRep(ViewOf(acc, collapsed), collapsed, order, ws, nested, projects, groups)
    ensures forall k, g :: k in projects && g in groups ==>
      (groups[g] in projects[k].groups <==> ProjectName(First(acc, GroupKey, g)) == k)
  {
    UnpackGroups(acc, collapsed, order, ws, nested, projects, groups);
    UnpackProjectGroups(acc, collapsed, order, ws, nested, projects, groups);
    var pg := GroupsOf(acc, collapsed);
    forall k, g | k in projects && g in groups
      ensures groups[g] in projects[k].groups <==> ProjectName(First(acc, GroupKey, g)) == k
    {
      GroupsOfMember(acc, collapsed, k, g);
      if groups[g] in projects[k].groups {
        var i :| 0 <= i < |projects[k].groups| && projects[k].groups[i] == groups[g];
        var q := pg[k][i];
        assert q in groups && groups[q] == groups[g];
        assert Injective(groups);
        assert q == g;
      }
      if ProjectName(First(acc, GroupKey, g)) == k {
        var i :| 0 <= i < |pg[k]| && pg[k][i] == g;
        assert projects[k].groups[i] == groups[g];
      }
    }
  }

  /**
   * Every placed task has an item: listed by its project item in a
   * collapsed view, by its group item otherwise.
   */
  lemma TaskItemsListed(acc: seq<Task>, collapsed: bool, order: seq<string>, ws: map<string, WorkspaceTreeItem>,
    nested: map<string, WorkspaceTreeItem>, projects: map<string, TreeItemWithTasksOrGroups>,
    groups: map<string, TreeItemWithTasksOrGroups>)
    requires ViewRep(ViewOf(acc, collapsed), collapsed, order, ws, nested, projects, groups)
    ensures forall t :: t in acc ==>
      if collapsed then
        KeyOf(t, collapsed) in projects
        && ViewItemOf(projects[KeyOf(t, collapsed)], t, collapsed) in projects[KeyOf(t, collapsed)].tasks
      else
        GroupKey(t) in groups && ViewItemOf(groups[GroupKey(t)], t, collapsed) in groups[GroupKey(t)].tasks
  {
    UnpackProjectTasks(acc, collapsed, order, ws, nested, projects, groups);
    UnpackGroups(acc, collapsed, order, ws, nested, projects, groups);
    UnpackProjects(acc, collapsed, order, ws, nested, projects, groups);
    var pk := ProjectKey(collapsed);
    forall t | t in acc
      ensures if collapsed then
          KeyOf(t, collapsed) in projects
          && ViewItemOf(projects[KeyOf(t, collapsed)], t, collapsed) in projects[KeyOf(t, collapsed)].tasks
        else
          GroupKey(t) in groups && ViewItemOf(groups[GroupKey(t)], t, collapsed) in groups[GroupKey(t)].tasks
    {
      if collapsed {
        var k := KeyOf(t, collapsed);
        KeyIn(acc, t, pk);
        var ts := Filter(acc, pk, k);
        var i :| 0 <= i < |ts| && ts[i] == t;
        assert projects[k].tasks[i] == ViewItemOf(projects[k], t, collapsed);
      } else {
        var g := GroupKey(t);
        KeyIn(acc, t, GroupKey);
        var ts := Filter(acc, GroupKey, g);
        var i :| 0 <= i < |ts| && ts[i] == t;
        assert groups[g].tasks[i] == ViewItemOf(groups[g], t, collapsed);
      }
    }
  }

  /**
   * Only a collapsed view lists tasks under project items; each task item a
   * project item lists is labelled with its task's whole script, and
   * `getParent` names that project item.
   */
  lemma ProjectTaskItems(acc: seq<Task>, collapsed: bool, order: seq<string>, ws: map<string, WorkspaceTreeItem>,
    nested: map<string, WorkspaceTreeItem>, projects: map<string, TreeItemWithTasksOrGroups>,
    groups: map<string, TreeItemWithTasksOrGroups>)
    requires ViewRep(ViewOf(acc, collapsed), collapsed, order, ws, nested, projects, groups)
    ensures forall k, i :: k in projects && 0 <= i < |projects[k].tasks| ==>
      && collapsed
      && projects[k].tasks[i].name == projects[k].tasks[i].task.definition.script
      && GetParent(TaskElem(projects[k].tasks[i])) == Some(ContainerElem(projects[k]))
  {
    UnpackProjectTasks(acc, collapsed, order, ws, nested, projects, groups);
    forall k, i | k in projects && 0 <= i < |projects[k].tasks|
      ensures collapsed
      ensures projects[k].tasks[i].name == projects[k].tasks[i].task.definition.script
      ensures GetParent(TaskElem(projects[k].tasks[i])) == Some(ContainerElem(projects[k]))
    {
      var item := projects[k].tasks[i];
      assert collapsed && item.parent == projects[k];
      ItemLabelIsTaskName(item.task, collapsed);
      TaskItemParent(item);
    }
  }

  /**
   * Each task item a group item lists is labelled with its task's own name,
   * with no `:` left in it, and `getParent` names that group item.
   */
  lemma GroupTaskItems(acc: seq<Task>, collapsed: bool, order: seq<string>, ws: map<string, WorkspaceTreeItem>,
    nested: map<string, WorkspaceTreeItem>, projects: map<string, TreeItemWithTasksOrGroups>,
    groups: map<string, TreeItemWithTasksOrGroups>)
    requires ViewRep(ViewOf(acc, collapsed), collapsed, order, ws, nested, projects, groups)
    ensures forall g, i :: g in groups && 0 <= i < |groups[g].tasks| ==>
      && groups[g].tasks[i].name == TaskName(groups[g].tasks[i].task.definition.script)
      && ':' !in groups[g].tasks[i].name
      && GetParent(TaskElem(groups[g].tasks[i])) == Some(ContainerElem(groups[g]))
  {
    UnpackGroups(acc, collapsed, order, ws, nested, projects, groups);
    forall g, i | g in groups && 0 <= i < |groups[g].tasks|
      ensures groups[g].tasks[i].name == TaskName(groups[g].tasks[i].task.definition.script)
      ensures ':' !in groups[g].tasks[i].name
      ensures GetParent(TaskElem(groups[g].tasks[i])) == Some(ContainerElem(groups[g]))
    {
      assert !collapsed;
      var ts := FilterMap(acc, GroupKey)[g];
      assert ListsItems(groups[g].tasks, groups[g], ts, collapsed);
      var item := groups[g].tasks[i];
      assert item == ViewItemOf(groups[g], ts[i], collapsed);
      ItemLabelIsTaskName(item.task, collapsed);
      TaskItemParent(item);
    }
  }

  /**
   * The top level `buildTaskTree` answers for other than one workspace:
   * the workspace folder items, in the order their scopes first occur among
   * the placed tasks, each named after its scope and without parent.
   */
  lemma TopLevelWorkspaces(r: seq<Element>, tasks: seq<Task>, collapsed: bool, order: seq<string>,
    ws: map<string, WorkspaceTreeItem>, nested: map<string, WorkspaceTreeItem>,
    projects: map<string, TreeItemWithTasksOrGroups>, groups: map<string, TreeItemWithTasksOrGroups>)
    requires BuiltTree(r, tasks, collapsed, order, ws, nested, projects, groups) && |ws| != 1
    ensures order == Dedup(Keys(Placed(tasks), ScopeName)) && forall w :: w in order <==> w in ws
    ensures |r| == |order|
    ensures forall i :: 0 <= i < |r| ==>
      && r[i] == WorkspaceElem(ws[order[i]])
      && r[i].Label() == order[i]
      && GetParent(r[i]) == None
  {
    assert TreeParts(r, tasks, collapsed, order, ws, nested, projects, groups);
    var acc := Placed(tasks);
    assert ViewRep(ViewOf(acc, collapsed), collapsed, order, ws, nested, projects, groups);
    WorkspaceFolderItems(acc, collapsed, order, ws, nested, projects, groups);
    var top := InOrder(order, ws);
    assert r == WorkspaceElems(top);
    forall i | 0 <= i < |r|
      ensures r[i] == WorkspaceElem(ws[order[i]]) && r[i].Label() == order[i] && GetParent(r[i]) == None
    {
      assert top[i] == ws[order[i]];
    }
  }

  /**
   * The top level `buildTaskTree` answers for a single workspace: its
   * nested folder items and then its project items. `getParent` names the
   * workspace folder item for every one of them, though that item is not
   * shown.
   */
  lemma TopLevelSingleWorkspace(r: seq<Element>, tasks: seq<Task>, collapsed: bool, order: seq<string>,
    ws: map<string, WorkspaceTreeItem>, nested: map<string, WorkspaceTreeItem>,
    projects: map<string, TreeItemWithTasksOrGroups>, groups: map<string, TreeItemWithTasksOrGroups>)
    requires BuiltTree(r, tasks, collapsed, order, ws, nested, projects, groups) && |ws| == 1
    ensures |order| == 1 && order[0] in ws
    ensures forall i :: 0 <= i < |r| ==>
      && (r[i].WorkspaceElem? || r[i].ContainerElem?)
      && GetParent(r[i]) == Some(WorkspaceElem(ws[order[0]]))
    ensures WorkspaceElem(ws[order[0]]) !in r
  {
    assert TreeParts(r, tasks, collapsed, order, ws, nested, projects, groups);
    var acc := Placed(tasks);
    assert ViewRep(ViewOf(acc, collapsed), collapsed, order, ws, nested, projects, groups);
    WorkspaceFolderItems(acc, collapsed, order, ws, nested, projects, groups);
    var w := order[0];
    WorkspaceFolderChildren(acc, collapsed, order, w, ws, nested, projects, groups);
    WorkspaceProjectChildren(acc, collapsed, order, w, ws, nested, projects, groups);
    var folders, items := ws[w].projectFolders, ws[w].projects;
    assert r == WorkspaceElems(folders) + ContainerElems(items);
    forall i | 0 <= i < |r|
      ensures r[i].WorkspaceElem? || r[i].ContainerElem?
      ensures GetParent(r[i]) == Some(WorkspaceElem(ws[w]))
      ensures r[i] != WorkspaceElem(ws[w])
    {
      FoldersThenProjects(folders, items, i);
    }
  }

  /** `getParent` names a workspace folder item for every folder item it lists, none of which is that item. */
  lemma WorkspaceFolderChildren(acc: seq<Task>, collapsed: bool, order: seq<string>, w: string,
    ws: map<string, WorkspaceTreeItem>, nested: map<string, WorkspaceTreeItem>,
    projects: map<string, TreeItemWithTasksOrGroups>, groups: map<string, TreeItemWithTasksOrGroups>)
    requires ViewRep(ViewOf(acc, collapsed), collapsed, order, ws, nested, projects, groups) && w in ws
    ensures forall x :: x in ws[w].projectFolders ==>
      x != ws[w] && GetParent(WorkspaceElem(x)) == Some(WorkspaceElem(ws[w]))
  {
    UnpackFolders(acc, collapsed, order, ws, nested, projects, groups);
    NestedFolderItems(acc, collapsed, order, ws, nested, projects, groups);
    var tfo := TopFolders(acc);
    forall x | x in ws[w].projectFolders
      ensures x != ws[w] && GetParent(WorkspaceElem(x)) == Some(WorkspaceElem(ws[w]))
    {
      var i :| 0 <= i < |ws[w].projectFolders| && ws[w].projectFolders[i] == x;
      var p := tfo[w][i];
      assert x == nested[p];
    }
  }

  /** `getParent` names a workspace folder item for every project item it lists. */
  lemma WorkspaceProjectChildren(acc: seq<Task>, collapsed: bool, order: seq<string>, w: string,
    ws: map<string, WorkspaceTreeItem>, nested: map<string, WorkspaceTreeItem>,
    projects: map<string, TreeItemWithTasksOrGroups>, groups: map<string, TreeItemWithTasksOrGroups>)
    requires ViewRep(ViewOf(acc, collapsed), collapsed, order, ws, nested, projects, groups) && w in ws
    ensures forall i :: 0 <= i < |ws[w].projects| ==> GetParent(ContainerElem(ws[w].projects[i])) == Some(WorkspaceElem(ws[w]))
  {
    UnpackFolders(acc, collapsed, order, ws, nested, projects, groups);
    ProjectItemParents(acc, collapsed, order, ws, nested, projects, groups);
    var tp := TopProjects(acc, collapsed);
    forall i | 0 <= i < |ws[w].projects|
      ensures GetParent(ContainerElem(ws[w].projects[i])) == Some(WorkspaceElem(ws[w]))
    {
      var k := tp[w][i];
      assert ws[w].projects[i] == projects[k];
      TopProjectsMember(acc, collapsed, w, k);
      var f := First(acc, ProjectKey(collapsed), k);
      assert FolderOf(f) == Top(w);
      assert !Nests(f) && ScopeName(f) == w;
      assert FolderItem(f, ws, nested) == ws[w];
    }
  }
}
