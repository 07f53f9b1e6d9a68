/**
 * What the task view shows once `buildItemsTreeFromTasks` has filled the
 * maps: which items each item lists, which item `getParent` names for each,
 * and what the top level is, all in terms of the accepted tasks.
 */
module TasksTreeFacts {
  import opened Wrappers
  import opened Collation
  import opened Proto
  import opened TaskDefinitions
  import opened TreeItems
  import opened SubFolderItems
  import opened TaskTreeSpec
  import opened TasksTreeProvider
  import opened TasksTreeDataProvider

  /** The maps hold the layout of `acc`, taken apart. */
  lemma Unpack(m: TreeItemMaps, acc: seq<Task>, collapsed: bool, store: map<string, RootProject>, basename: string -> string)
    requires m.HoldsTasks(acc, collapsed, store, basename)
    ensures RepParts(LayoutOf(acc, collapsed), collapsed, m.rootOrder, m.rootItems, m.projectItems, m.groupItems,
      m.taskItems, store, basename)
  {
    var l := LayoutOf(acc, collapsed);
    assert m.Holds(l, collapsed, store, basename);
    assert Rep(l, collapsed, m.rootOrder, m.rootItems, m.projectItems, m.groupItems, m.taskItems, store, basename);
  }

  /** The root project items and the project items they list. */
  lemma UnpackRoots(m: TreeItemMaps, acc: seq<Task>, collapsed: bool, store: map<string, RootProject>, basename: string -> string)
    requires m.HoldsTasks(acc, collapsed, store, basename)
    ensures m.rootOrder == Dedup(Keys(acc, FolderKey))
    ensures RootsShape(m.rootOrder, m.rootItems, store, basename)
    ensures RootsContent(RootProjects(acc), m.rootItems, m.projectItems)
    ensures ProjectsShape(FirstMap(acc, BuildFileKey), m.rootItems, m.projectItems)
  {
    Unpack(m, acc, collapsed, store, basename);
  }

  /** The project items and the group items they list. */
  lemma UnpackGroups(m: TreeItemMaps, acc: seq<Task>, collapsed: bool, store: map<string, RootProject>, basename: string -> string)
    requires m.HoldsTasks(acc, collapsed, store, basename)
    ensures m.projectItems.Keys == ProjectGroups(acc, collapsed).Keys
    ensures forall b :: b in m.projectItems ==> Lists(m.projectItems[b].groups, m.groupItems, ProjectGroups(acc, collapsed)[b])
    ensures GroupsShape(if collapsed then map[] else FirstMap(acc, GroupKey), m.projectItems, m.groupItems)
  {
    Unpack(m, acc, collapsed, store, basename);
  }

  /** The task items the containers list. */
  lemma UnpackTasks(m: TreeItemMaps, acc: seq<Task>, collapsed: bool, store: map<string, RootProject>, basename: string -> string)
    requires m.HoldsTasks(acc, collapsed, store, basename)
    ensures forall b :: b in m.projectItems ==>
      ListsTasks(m.projectItems[b].tasks, m.projectItems[b], if collapsed then Filter(acc, BuildFileKey, b) else [])
    ensures GroupsContent(if collapsed then map[] else FilterMap(acc, GroupKey), m.groupItems)
  {
    Unpack(m, acc, collapsed, store, basename);
    var l := LayoutOf(acc, collapsed);
    forall b | b in m.projectItems
      ensures ListsTasks(m.projectItems[b].tasks, m.projectItems[b], if collapsed then Filter(acc, BuildFileKey, b) else [])
    {
      assert ListsTasks(m.projectItems[b].tasks, m.projectItems[b], l.projectTasks[b]);
    }
  }

  /** The task map. */
  lemma UnpackIds(m: TreeItemMaps, acc: seq<Task>, collapsed: bool, store: map<string, RootProject>, basename: string -> string)
    requires m.HoldsTasks(acc, collapsed, store, basename)
    ensures TaskIdsRep(LastMap(acc, IdKey), collapsed, m.taskItems, m.projectItems, m.groupItems)
  {
    Unpack(m, acc, collapsed, store, basename);
  }

  /** The root project map: one item per folder, in first-occurrence order. */
  lemma RootOrder(m: TreeItemMaps, acc: seq<Task>, collapsed: bool, store: map<string, RootProject>, basename: string -> string)
    requires m.HoldsTasks(acc, collapsed, store, basename)
    ensures m.rootOrder == Dedup(Keys(acc, FolderKey))
    ensures forall f :: f in m.rootItems <==> f in m.rootOrder
  {
    UnpackRoots(m, acc, collapsed, store, basename);
  }

  /** The root project item of folder `f`. */
  lemma RootEntry(m: TreeItemMaps, acc: seq<Task>, collapsed: bool, store: map<string, RootProject>, basename: string -> string,
    f: string)
    requires m.HoldsTasks(acc, collapsed, store, basename)
    requires f in m.rootItems
    ensures m.rootItems[f].name == basename(f)
    ensures f in RootProjects(acc) && |m.rootItems[f].projects| == |RootProjects(acc)[f]|
  {
    UnpackRoots(m, acc, collapsed, store, basename);
  }

  /** The `i`th project item the root project item of folder `f` lists. */
  lemma RootProjectEntry(m: TreeItemMaps, acc: seq<Task>, collapsed: bool, store: map<string, RootProject>,
    basename: string -> string, f: string, i: nat)
    requires m.HoldsTasks(acc, collapsed, store, basename)
    requires f in m.rootItems && f in RootProjects(acc) && i < |RootProjects(acc)[f]|
    ensures var b := RootProjects(acc)[f][i];
      && i < |m.rootItems[f].projects|
      && b in Keys(acc, BuildFileKey) && b in m.projectItems
      && m.rootItems[f].projects[i] == m.projectItems[b]
      && m.projectItems[b].kind == ProjectKind
      && FolderKey(First(acc, BuildFileKey, b)) in m.rootItems
      && m.projectItems[b].parent == RootProjectElem(m.rootItems[FolderKey(First(acc, BuildFileKey, b))])
  {
    UnpackRoots(m, acc, collapsed, store, basename);
  }

  /** Every build file of the accepted tasks has a project item. */
  lemma ProjectKnown(m: TreeItemMaps, acc: seq<Task>, collapsed: bool, store: map<string, RootProject>,
    basename: string -> string, b: string)
    requires m.HoldsTasks(acc, collapsed, store, basename)
    requires b in Keys(acc, BuildFileKey)
    ensures b in m.projectItems
  {
    UnpackRoots(m, acc, collapsed, store, basename);
  }

  /**
   * A root project item, named after its folder, lists the project item of
   * a build file exactly when the first accepted task with that build file
   * is in its folder; `getParent` of each is the root project item.
   */
  lemma RootListsProjects(m: TreeItemMaps, acc: seq<Task>, collapsed: bool, store: map<string, RootProject>,
    basename: string -> string, f: string)
    requires m.HoldsTasks(acc, collapsed, store, basename)
    requires f in m.rootItems
    ensures m.rootItems[f].name == basename(f)
    ensures forall p :: p in m.rootItems[f].projects ==>
      p.kind == ProjectKind && GetParent(ContainerElem(p)) == Some(RootProjectElem(m.rootItems[f]))
    ensures forall b :: b in Keys(acc, BuildFileKey) ==>
      b in m.projectItems && (FolderKey(First(acc, BuildFileKey, b)) == f ==> m.projectItems[b] in m.rootItems[f].projects)
    ensures forall p :: p in m.rootItems[f].projects ==>
      exists b :: b in Keys(acc, BuildFileKey) && b in m.projectItems && p == m.projectItems[b] && FolderKey(First(acc, BuildFileKey, b)) == f
  {
    RootEntry(m, acc, collapsed, store, basename, f);
    var rp := RootProjects(acc);
    var projects := m.rootItems[f].projects;
    forall p | p in projects
      ensures p.kind == ProjectKind && GetParent(ContainerElem(p)) == Some(RootProjectElem(m.rootItems[f]))
      ensures exists b :: b in Keys(acc, BuildFileKey) && b in m.projectItems && p == m.projectItems[b] && FolderKey(First(acc, BuildFileKey, b)) == f
    {
      var i :| 0 <= i < |projects| && projects[i] == p;
      RootProjectEntry(m, acc, collapsed, store, basename, f, i);
      RootProjectsMember(acc, f, rp[f][i]);
    }
    forall b | b in Keys(acc, BuildFileKey)
      ensures b in m.projectItems && (FolderKey(First(acc, BuildFileKey, b)) == f ==> m.projectItems[b] in projects)
    {
      ProjectKnown(m, acc, collapsed, store, basename, b);
      RootProjectsMember(acc, f, b);
      if FolderKey(First(acc, BuildFileKey, b)) == f {
        var i :| 0 <= i < |rp[f]| && rp[f][i] == b;
        RootProjectEntry(m, acc, collapsed, store, basename, f, i);
      }
    }
  }

  /** The group list of the project item of build file `b`. */
  lemma ProjectEntry(m: TreeItemMaps, acc: seq<Task>, collapsed: bool, store: map<string, RootProject>,
    basename: string -> string, b: string)
    requires m.HoldsTasks(acc, collapsed, store, basename)
    requires b in m.projectItems
    ensures b in ProjectGroups(acc, collapsed) && |m.projectItems[b].groups| == |ProjectGroups(acc, collapsed)[b]|
  {
    UnpackGroups(m, acc, collapsed, store, basename);
  }

  /** The `i`th group item the project item of build file `b` lists. */
  lemma GroupEntry(m: TreeItemMaps, acc: seq<Task>, collapsed: bool, store: map<string, RootProject>,
    basename: string -> string, b: string, i: nat)
    requires m.HoldsTasks(acc, collapsed, store, basename)
    requires b in m.projectItems && b in ProjectGroups(acc, collapsed) && i < |ProjectGroups(acc, collapsed)[b]|
    ensures var g := ProjectGroups(acc, collapsed)[b][i];
      && !collapsed
      && i < |m.projectItems[b].groups|
      && g in Keys(acc, GroupKey) && g in m.groupItems
      && m.projectItems[b].groups[i] == m.groupItems[g]
      && m.groupItems[g].kind == GroupKind
      && BuildFileKey(First(acc, GroupKey, g)) in m.projectItems
      && m.groupItems[g].parent == ContainerElem(m.projectItems[BuildFileKey(First(acc, GroupKey, g))])
  {
    UnpackGroups(m, acc, collapsed, store, basename);
  }

  /** Unless the view is collapsed, every group key of the accepted tasks has a group item; distinct keys have distinct items. */
  lemma GroupKnown(m: TreeItemMaps, acc: seq<Task>, collapsed: bool, store: map<string, RootProject>,
    basename: string -> string, j: string, k: string)
    requires m.HoldsTasks(acc, collapsed, store, basename)
    requires !collapsed && k in Keys(acc, GroupKey)
    ensures k in m.groupItems
    ensures j in m.groupItems && m.groupItems[j] == m.groupItems[k] ==> j == k
  {
    UnpackGroups(m, acc, collapsed, store, basename);
  }

  /**
   * A project item lists the group item of a group key exactly when the
   * first accepted task with that key has its build file, and a collapsed
   * view lists none; `getParent` of each is the project item.
   */
  lemma ProjectListsGroups(m: TreeItemMaps, acc: seq<Task>, collapsed: bool, store: map<string, RootProject>,
    basename: string -> string, b: string)
    requires m.HoldsTasks(acc, collapsed, store, basename)
    requires b in m.projectItems
    ensures collapsed ==> m.projectItems[b].groups == []
    ensures forall g :: g in m.projectItems[b].groups ==>
      g.kind == GroupKind && GetParent(ContainerElem(g)) == Some(ContainerElem(m.projectItems[b]))
    ensures forall k :: k in Keys(acc, GroupKey) && !collapsed ==>
      && k in m.groupItems
      && (m.groupItems[k] in m.projectItems[b].groups <==> BuildFileKey(First(acc, GroupKey, k)) == b)
  {
    ProjectEntry(m, acc, collapsed, store, basename, b);
    var pg := ProjectGroups(acc, collapsed);
    var groups := m.projectItems[b].groups;
    if collapsed && |pg[b]| > 0 {
      GroupEntry(m, acc, collapsed, store, basename, b, 0);
      assert false;
    }
    forall g | g in groups
      ensures g.kind == GroupKind && GetParent(ContainerElem(g)) == Some(ContainerElem(m.projectItems[b]))
    {
      var i :| 0 <= i < |groups| && groups[i] == g;
      GroupEntry(m, acc, collapsed, store, basename, b, i);
      ProjectGroupsMember(acc, collapsed, b, pg[b][i]);
    }
    forall k | k in Keys(acc, GroupKey) && !collapsed
      ensures k in m.groupItems && (m.groupItems[k] in groups <==> BuildFileKey(First(acc, GroupKey, k)) == b)
    {
      GroupKnown(m, acc, collapsed, store, basename, k, k);
      ProjectGroupsMember(acc, collapsed, b, k);
      if BuildFileKey(First(acc, GroupKey, k)) == b {
        var i :| 0 <= i < |pg[b]| && pg[b][i] == k;
        GroupEntry(m, acc, collapsed, store, basename, b, i);
      }
      if m.groupItems[k] in groups {
        var i :| 0 <= i < |groups| && groups[i] == m.groupItems[k];
        GroupEntry(m, acc, collapsed, store, basename, b, i);
        GroupKnown(m, acc, collapsed, store, basename, pg[b][i], k);
      }
    }
  }

  /** Every task item made under `parent` names it as its parent. */
  lemma ListsTasksParent(items: seq<GradleTaskTreeItem>, parent: TreeItemWithTasksOrGroups, ts: seq<Task>)
    requires ListsTasks(items, parent, ts)
    ensures forall t :: t in items ==> GetParent(TaskElem(t)) == Some(ContainerElem(parent))
  {
    forall t | t in items
      ensures GetParent(TaskElem(t)) == Some(ContainerElem(parent))
    {
      var i :| 0 <= i < |items| && items[i] == t;
    }
  }

  /** The task items the project item of build file `b` lists, each naming the project item as its parent. */
  lemma ProjectTasks(m: TreeItemMaps, acc: seq<Task>, collapsed: bool, store: map<string, RootProject>,
    basename: string -> string, b: string)
    requires m.HoldsTasks(acc, collapsed, store, basename)
    requires b in m.projectItems
    ensures ListsTasks(m.projectItems[b].tasks, m.projectItems[b], if collapsed then Filter(acc, BuildFileKey, b) else [])
    ensures forall t :: t in m.projectItems[b].tasks ==> GetParent(TaskElem(t)) == Some(ContainerElem(m.projectItems[b]))
  {
    UnpackTasks(m, acc, collapsed, store, basename);
    ListsTasksParent(m.projectItems[b].tasks, m.projectItems[b], if collapsed then Filter(acc, BuildFileKey, b) else []);
  }

  /** The task items the group item of key `g` lists, each naming the group item as its parent. */
  lemma GroupTasks(m: TreeItemMaps, acc: seq<Task>, collapsed: bool, store: map<string, RootProject>,
    basename: string -> string, g: string)
    requires m.HoldsTasks(acc, collapsed, store, basename)
    requires g in m.groupItems
    ensures !collapsed && m.groupItems[g].groups == []
    ensures ListsTasks(m.groupItems[g].tasks, m.groupItems[g], Filter(acc, GroupKey, g))
    ensures forall t :: t in m.groupItems[g].tasks ==> GetParent(TaskElem(t)) == Some(ContainerElem(m.groupItems[g]))
  {
    UnpackTasks(m, acc, collapsed, store, basename);
    ListsTasksParent(m.groupItems[g].tasks, m.groupItems[g], Filter(acc, GroupKey, g));
  }

  /**
   * The task map holds an item for every id of the accepted tasks: that of
   * the last task with the id, under its project in a collapsed view and
   * under its group otherwise, which is what `getParent` names.
   */
  lemma TaskItemOfId(m: TreeItemMaps, acc: seq<Task>, collapsed: bool, store: map<string, RootProject>,
    basename: string -> string, id: string)
    requires m.HoldsTasks(acc, collapsed, store, basename)
    ensures id in m.taskItems <==> id in Keys(acc, IdKey)
    ensures id in m.taskItems ==>
      var t := Last(acc, IdKey, id);
      && m.taskItems[id].task == t
      && (collapsed ==> BuildFileKey(t) in m.projectItems && m.taskItems[id].parent == m.projectItems[BuildFileKey(t)])
      && (!collapsed ==> GroupKey(t) in m.groupItems && m.taskItems[id].parent == m.groupItems[GroupKey(t)])
      && GetParent(TaskElem(m.taskItems[id])) == Some(ContainerElem(m.taskItems[id].parent))
  {
    UnpackIds(m, acc, collapsed, store, basename);
  }

  /** Distinct elements: the set has as many as the sequence. */
  lemma {:induction false} DistinctCard(s: seq<string>)
    requires forall i, j :: 0 <= i < j < |s| ==> s[i] != s[j]
    ensures |set x | x in s| == |s|
  {
    if s != [] {
      DistinctCard(s[1..]);
      assert (set x | x in s) == {s[0]} + (set x | x in s[1..]);
      assert s[0] !in s[1..];
    }
  }

  /** A map whose keys are those of a sequence without repeats has as many entries as it. */
  lemma KeysCount<V>(m: map<string, V>, order: seq<string>)
    requires forall f :: f in m <==> f in order
    requires forall i, j :: 0 <= i < j < |order| ==> order[i] != order[j]
    ensures |m| == |order|
  {
    DistinctCard(order);
    assert m.Keys == set x | x in order;
  }

  /** There are as many root project items as distinct project folders of the accepted tasks. */
  lemma RootCount(m: TreeItemMaps, acc: seq<Task>, collapsed: bool, store: map<string, RootProject>, basename: string -> string)
    requires m.HoldsTasks(acc, collapsed, store, basename)
    ensures m.rootOrder == Dedup(Keys(acc, FolderKey))
    ensures |m.rootItems| == |m.rootOrder|
  {
    RootOrder(m, acc, collapsed, store, basename);
    KeysCount(m.rootItems, m.rootOrder);
  }

  /**
   * The top level `buildItemsTreeFromTasks` answers for other than one
   * folder: the root project items, in the order their folders first occur
   * among the accepted tasks, each named after its folder and without parent.
   */
  lemma TopLevelRoots(m: TreeItemMaps, acc: seq<Task>, collapsed: bool, store: map<string, RootProject>,
    basename: string -> string, r: seq<Element>)
    requires m.HoldsTasks(acc, collapsed, store, basename)
    requires TopLevelOf(m, r) && |m.rootItems| != 1
    ensures |r| == |m.rootOrder|
    ensures forall i :: 0 <= i < |r| ==>
      && r[i].RootProjectElem?
      && r[i].rootProject.name == basename(m.rootOrder[i])
      && GetParent(r[i]) == None
  {
    forall i | 0 <= i < |r|
      ensures r[i].RootProjectElem? && r[i].rootProject.name == basename(m.rootOrder[i])
    {
      RootEntry(m, acc, collapsed, store, basename, m.rootOrder[i]);
    }
  }

  /**
   * The top level `buildItemsTreeFromTasks` answers for a single folder:
   * the project items of its root project item, which each name as parent.
   */
  lemma TopLevelProjects(m: TreeItemMaps, acc: seq<Task>, collapsed: bool, store: map<string, RootProject>,
    basename: string -> string, r: seq<Element>)
    requires m.HoldsTasks(acc, collapsed, store, basename)
    requires TopLevelOf(m, r) && |m.rootItems| == 1
    ensures |m.rootOrder| == 1
    ensures forall e :: e in r ==>
      && e.ContainerElem?
      && e.container.kind == ProjectKind
      && GetParent(e) == Some(RootProjectElem(m.rootItems[m.rootOrder[0]]))
  {
    RootCount(m, acc, collapsed, store, basename);
    RootListsProjects(m, acc, collapsed, store, basename, m.rootOrder[0]);
  }

  /**
   * The "Tasks" folder of a project item lists the project's groups and
   * tasks, yet `getParent` of each names the project item, never the folder.
   */
  lemma TasksFolderParents(m: TreeItemMaps, acc: seq<Task>, collapsed: bool, store: map<string, RootProject>,
    basename: string -> string, b: string, e: Element)
    requires m.HoldsTasks(acc, collapsed, store, basename)
    requires b in m.projectItems && TasksFolder(e, m.projectItems[b])
    ensures forall c :: c in e.subFolder.children.value ==>
      GetParent(c) == Some(e.subFolder.parent) && GetParent(c) != Some(e)
  {
    var p := m.projectItems[b];
    ProjectListsGroups(m, acc, collapsed, store, basename, b);
    ProjectTasks(m, acc, collapsed, store, basename, b);
    var cs := e.subFolder.children.value;
    forall c | c in cs
      ensures GetParent(c) == Some(e.subFolder.parent)
    {
      var i :| 0 <= i < |cs| && cs[i] == c;
      if i >= |p.groups| {
        assert c == TaskElems(p.tasks)[i - |p.groups|];
      }
    }
  }

  /** Every child of a "Dependencies" folder names the folder as its parent, and the folder names the item it is under. */
  lemma FolderParents(e: Element, parent: Element, views: seq<ItemView>)
    requires ShowsFolder(e, parent, views)
    ensures GetParent(e) == Some(parent)
    ensures forall c :: c in e.subFolder.children.value ==> GetParent(c) == Some(e)
  {
    var cs := e.subFolder.children.value;
    forall c | c in cs
      ensures GetParent(c) == Some(e)
    {
      var i :| 0 <= i < |cs| && cs[i] == c;
    }
  }

  /** Every folder listed is that of a node named `name`. */
  lemma {:induction false} DependencyFoldersSound(nodes: seq<DependencyNode>, name: string)
    ensures forall v :: v in DependencyFolders(nodes, name) ==>
      exists n :: n in nodes && n.name == name && DependenciesFolder(n) == Some(v)
  {
    if nodes != [] {
      var prefix := nodes[..|nodes| - 1];
      DependencyFoldersSound(prefix, name);
      forall v | v in DependencyFolders(nodes, name)
        ensures exists n :: n in nodes && n.name == name && DependenciesFolder(n) == Some(v)
      {
        if v in DependencyFolders(prefix, name) {
          var n :| n in prefix && n.name == name && DependenciesFolder(n) == Some(v);
          assert n in nodes;
        } else {
          assert nodes[|nodes| - 1] in nodes;
        }
      }
    }
  }

  /** Every node named `name` that has children has its folder listed. */
  lemma {:induction false} DependencyFoldersComplete(nodes: seq<DependencyNode>, name: string)
    ensures forall n :: n in nodes && n.name == name && |n.children| > 0 ==>
      DependenciesFolder(n).Some? && DependenciesFolder(n).value in DependencyFolders(nodes, name)
  {
    if nodes != [] {
      var prefix := nodes[..|nodes| - 1];
      DependencyFoldersComplete(prefix, name);
      assert forall n :: n in nodes ==> n in prefix || n == nodes[|nodes| - 1];
      assert forall v :: v in DependencyFolders(prefix, name) ==> v in DependencyFolders(nodes, name);
    }
  }
}
