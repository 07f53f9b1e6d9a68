/**
 * What `buildItemsTreeFromTasks` of the newer task view builds, stated over
 * the accepted tasks. Root project items are keyed by project folder,
 * project items by build file, group items by `group + project`; each map
 * keeps the item made for the first task with the key, and the task map
 * keeps the item of the last task with an id.
 */
module TaskTreeSpec {
  import opened Collation
  import opened TaskDefinitions

  /** What the root project store answers for a project folder: `getProjectUri()` and `getJavaDebug()`. */
  datatype RootProject = RootProject(projectUri: string, javaDebug: bool)

  function FolderKey(t: Task): string { t.definition.projectFolder }
  function BuildFileKey(t: Task): string { t.definition.buildFile }
  function GroupKey(t: Task): string { t.definition.group + t.definition.project }
  function IdKey(t: Task): string { t.definition.id }

  /** A task is placed when it is scoped to a workspace folder, is a Gradle task and has a root project. */
  predicate IsAccepted(t: Task, store: map<string, RootProject>)
  {
    t.scope.WorkspaceFolder? && t.isGradleTask && t.definition.projectFolder in store
  }

  /** The tasks that are placed, in order; every other task is skipped by an early `return`. */
  function Accepted(tasks: seq<Task>, store: map<string, RootProject>): (acc: seq<Task>)
    ensures |acc| <= |tasks|
    ensures forall t :: t in acc ==> t in tasks && IsAccepted(t, store)
    ensures forall t :: t in tasks && IsAccepted(t, store) ==> t in acc
  {
    if tasks == [] then []
    else
      var prefix := Accepted(tasks[..|tasks| - 1], store);
      var t := tasks[|tasks| - 1];
      assert forall u :: u in tasks ==> u in tasks[..|tasks| - 1] || u == t;
      if IsAccepted(t, store) then prefix + [t] else prefix
  }

  /** The tasks of `ts` whose key is `k`, in order. */
  function Filter(ts: seq<Task>, key: Task -> string, k: string): (r: seq<Task>)
    ensures |r| <= |ts|
    ensures forall t :: t in r <==> t in ts && key(t) == k
  {
    if ts == [] then []
    else
      var prefix := Filter(ts[..|ts| - 1], key, k);
      var t := ts[|ts| - 1];
      assert forall u :: u in ts ==> u in ts[..|ts| - 1] || u == t;
      if key(t) == k then prefix + [t] else prefix
  }

  /** The last task of `ts` whose key is `k`: the one a map keyed by `k` ends up holding. */
  function Last(ts: seq<Task>, key: Task -> string, k: string): (t: Task)
    requires k in Keys(ts, key)
    ensures t in ts && key(t) == k
  {
    var prefix := ts[..|ts| - 1];
    if key(ts[|ts| - 1]) == k then ts[|ts| - 1]
    else
      assert k in Keys(prefix, key) by {
        var j :| 0 <= j < |ts| && Keys(ts, key)[j] == k;
        assert j < |ts| - 1 && Keys(prefix, key)[j] == k;
      }
      Last(prefix, key, k)
  }

  /** `m[k]` with `x` appended, an absent entry reading as empty. */
  function Append<T>(m: map<string, seq<T>>, k: string, x: T): (m': map<string, seq<T>>)
    ensures m'.Keys == m.Keys + {k}
    ensures m'[k] == (if k in m then m[k] else []) + [x]
    ensures forall k' :: k' in m && k' != k ==> m'[k'] == m[k']
  {
    m[k := (if k in m then m[k] else []) + [x]]
  }

  /** Appending to an entry just set to empty is appending to an absent one. */
  lemma AppendAfterBlank<T>(m: map<string, seq<T>>, k: string, x: T)
    requires k !in m
    ensures Append(m[k := []], k, x) == Append(m, k, x)
  {
  }

  /** Setting an entry to the value it has changes nothing. */
  lemma UpdateSame<T>(m: map<string, seq<T>>, k: string, v: seq<T>)
    requires k in m && m[k] == v
    ensures m[k := v] == m
  {
  }

  /**
   * The build files whose project items each root project item lists, by
   * project folder: a root gets an empty list when its folder first occurs,
   * and a build file is appended to the list of the folder of the task that
   * first has it.
   */
  function RootProjects(acc: seq<Task>): map<string, seq<string>>
  {
    if acc == [] then map[]
    else
      var prefix, t := acc[..|acc| - 1], acc[|acc| - 1];
      var prev := RootProjects(prefix);
      var withRoot := if FolderKey(t) in prev then prev else prev[FolderKey(t) := []];
      if BuildFileKey(t) in Keys(prefix, BuildFileKey) then withRoot
      else Append(withRoot, FolderKey(t), BuildFileKey(t))
  }

  /**
   * The group keys whose group items each project item lists, by build file:
   * a project gets an empty list when its build file first occurs, and
   * unless the view is collapsed a group key is appended to the list of the
   * build file of the task that first has it.
   */
  function ProjectGroups(acc: seq<Task>, collapsed: bool): map<string, seq<string>>
  {
    if acc == [] then map[]
    else
      var prefix, t := acc[..|acc| - 1], acc[|acc| - 1];
      var prev := ProjectGroups(prefix, collapsed);
      var withProject := if BuildFileKey(t) in prev then prev else prev[BuildFileKey(t) := []];
      if collapsed || GroupKey(t) in Keys(prefix, GroupKey) then withProject
      else Append(withProject, BuildFileKey(t), GroupKey(t))
  }

  // ---------------------------------------------------------------------------
  // One more task
  // ---------------------------------------------------------------------------

  lemma KeysSnoc(ts: seq<Task>, t: Task, key: Task -> string)
    ensures Keys(ts + [t], key) == Keys(ts, key) + [key(t)]
  {
    assert (ts + [t])[..|ts|] == ts;
  }

  lemma FilterSnoc(ts: seq<Task>, t: Task, key: Task -> string, k: string)
    ensures Filter(ts + [t], key, k) == Filter(ts, key, k) + (if key(t) == k then [t] else [])
  {
    assert (ts + [t])[..|ts|] == ts;
  }

  lemma DedupSnoc(s: seq<string>, x: string)
    ensures Dedup(s + [x]) == if x in s then Dedup(s) else Dedup(s) + [x]
  {
    assert (s + [x])[..|s|] == s;
  }

  /** Appending a task changes no last occurrence except that of its own key. */
  lemma LastSnoc(ts: seq<Task>, t: Task, key: Task -> string, k: string)
    requires k in Keys(ts + [t], key)
    ensures key(t) == k ==> Last(ts + [t], key, k) == t
    ensures key(t) != k ==> k in Keys(ts, key) && Last(ts + [t], key, k) == Last(ts, key, k)
  {
    KeysSnoc(ts, t, key);
    assert (ts + [t])[..|ts|] == ts;
  }

  // ---------------------------------------------------------------------------
  // What the maps and lists hold
  // ---------------------------------------------------------------------------

  /** There is one root project item per distinct project folder of the accepted tasks. */
  lemma {:induction false} RootProjectsKeys(acc: seq<Task>)
    ensures forall f :: f in RootProjects(acc) <==> f in Keys(acc, FolderKey)
  {
    if acc != [] {
      var prefix, t := acc[..|acc| - 1], acc[|acc| - 1];
      RootProjectsKeys(prefix);
      assert acc == prefix + [t];
      KeysSnoc(prefix, t, FolderKey);
    }
  }

  /** A member's key is among the keys. */
  lemma KeyIn(ts: seq<Task>, t: Task, key: Task -> string)
    requires t in ts
    ensures key(t) in Keys(ts, key)
  {
    var j :| 0 <= j < |ts| && ts[j] == t;
    assert Keys(ts, key)[j] == key(t);
  }

  /** What one more task does to the root list of a project folder. */
  lemma RootProjectsStep(prefix: seq<Task>, t: Task, f: string)
    ensures f in RootProjects(prefix + [t]) <==> f in RootProjects(prefix) || f == FolderKey(t)
    ensures f in RootProjects(prefix + [t]) ==>
              RootProjects(prefix + [t])[f] ==
                (if f in RootProjects(prefix) then RootProjects(prefix)[f] else []) +
                (if f == FolderKey(t) && BuildFileKey(t) !in Keys(prefix, BuildFileKey) then [BuildFileKey(t)] else [])
  {
    assert (prefix + [t])[..|prefix|] == prefix;
  }

  /** A build file is listed under the project folder of the first task that has it, and under no other root. */
  lemma {:induction false} RootProjectsMember(acc: seq<Task>, f: string, b: string)
    requires f in RootProjects(acc)
    ensures b in RootProjects(acc)[f] <==> b in Keys(acc, BuildFileKey) && FolderKey(First(acc, BuildFileKey, b)) == f
  {
    var prefix, t := acc[..|acc| - 1], acc[|acc| - 1];
    assert acc == prefix + [t];
    KeysSnoc(prefix, t, BuildFileKey);
    RootProjectsStep(prefix, t, f);
    var prev := RootProjects(prefix);
    if f in prev {
      RootProjectsMember(prefix, f, b);
    } else if b in Keys(prefix, BuildFileKey) {
      RootProjectsKeys(prefix);
      KeyIn(prefix, First(prefix, BuildFileKey, b), FolderKey);
    }
    if b in Keys(acc, BuildFileKey) {
      FirstAppend(prefix, t, BuildFileKey, b);
    }
  }

  /** No build file is listed twice under a root. */
  lemma {:induction false} RootProjectsNoDup(acc: seq<Task>, f: string)
    requires f in RootProjects(acc)
    ensures NoDup(RootProjects(acc)[f])
  {
    var prefix, t := acc[..|acc| - 1], acc[|acc| - 1];
    var prev := RootProjects(prefix);
    if f in prev {
      RootProjectsNoDup(prefix, f);
      if BuildFileKey(t) !in Keys(prefix, BuildFileKey) {
        RootProjectsMember(prefix, f, BuildFileKey(t));
      }
    }
  }

  /** A project item is made for every distinct build file of the accepted tasks. */
  lemma {:induction false} ProjectGroupsKeys(acc: seq<Task>, collapsed: bool)
    ensures forall b :: b in ProjectGroups(acc, collapsed) <==> b in Keys(acc, BuildFileKey)
  {
    if acc != [] {
      var prefix, t := acc[..|acc| - 1], acc[|acc| - 1];
      ProjectGroupsKeys(prefix, collapsed);
      assert acc == prefix + [t];
      KeysSnoc(prefix, t, BuildFileKey);
    }
  }

  /** What one more task does to the group list of a build file. */
  lemma ProjectGroupsStep(prefix: seq<Task>, t: Task, collapsed: bool, b: string)
    ensures b in ProjectGroups(prefix + [t], collapsed) <==> b in ProjectGroups(prefix, collapsed) || b == BuildFileKey(t)
    ensures b in ProjectGroups(prefix + [t], collapsed) ==>
              ProjectGroups(prefix + [t], collapsed)[b] ==
                (if b in ProjectGroups(prefix, collapsed) then ProjectGroups(prefix, collapsed)[b] else []) +
                (if b == BuildFileKey(t) && !collapsed && GroupKey(t) !in Keys(prefix, GroupKey) then [GroupKey(t)] else [])
  {
    assert (prefix + [t])[..|prefix|] == prefix;
  }

  /**
   * Unless the view is collapsed, a group key is listed under the build file
   * of the first task that has it, and under no other project; a collapsed
   * view lists no groups.
   */
  lemma {:induction false} ProjectGroupsMember(acc: seq<Task>, collapsed: bool, b: string, g: string)
    requires b in ProjectGroups(acc, collapsed)
    ensures g in ProjectGroups(acc, collapsed)[b] <==>
      !collapsed && g in Keys(acc, GroupKey) && BuildFileKey(First(acc, GroupKey, g)) == b
  {
    var prefix, t := acc[..|acc| - 1], acc[|acc| - 1];
    assert acc == prefix + [t];
    KeysSnoc(prefix, t, GroupKey);
    ProjectGroupsStep(prefix, t, collapsed, b);
    var prev := ProjectGroups(prefix, collapsed);
    if b in prev {
      ProjectGroupsMember(prefix, collapsed, b, g);
    } else if g in Keys(prefix, GroupKey) {
      ProjectGroupsKeys(prefix, collapsed);
      KeyIn(prefix, First(prefix, GroupKey, g), BuildFileKey);
    }
    if g in Keys(acc, GroupKey) {
      FirstAppend(prefix, t, GroupKey, g);
    }
  }

  /** No group is listed twice under a project. */
  lemma {:induction false} ProjectGroupsNoDup(acc: seq<Task>, collapsed: bool, b: string)
    requires b in ProjectGroups(acc, collapsed)
    ensures NoDup(ProjectGroups(acc, collapsed)[b])
  {
    var prefix, t := acc[..|acc| - 1], acc[|acc| - 1];
    var prev := ProjectGroups(prefix, collapsed);
    if b in prev {
      ProjectGroupsNoDup(prefix, collapsed, b);
      if !collapsed && GroupKey(t) !in Keys(prefix, GroupKey) {
        ProjectGroupsMember(prefix, collapsed, b, GroupKey(t));
      }
    }
  }

  // ---------------------------------------------------------------------------
  // The layout the builder keeps
  // ---------------------------------------------------------------------------

  /** The item made for the first task of `acc` with each key. */
  function FirstMap(acc: seq<Task>, key: Task -> string): (m: map<string, Task>)
    ensures forall k :: k in m <==> k in Keys(acc, key)
  {
    map k | k in Keys(acc, key) :: First(acc, key, k)
  }

  /** The tasks of `acc` with each key, in order. */
  function FilterMap(acc: seq<Task>, key: Task -> string): (m: map<string, seq<Task>>)
    ensures forall k :: k in m <==> k in Keys(acc, key)
  {
    map k | k in Keys(acc, key) :: Filter(acc, key, k)
  }

  /** The last task of `acc` with each key. */
  function LastMap(acc: seq<Task>, key: Task -> string): (m: map<string, Task>)
    ensures forall k :: k in m <==> k in Keys(acc, key)
  {
    map k | k in Keys(acc, key) :: Last(acc, key, k)
  }

  /** An empty list for every key of `acc`. */
  function EmptyLists(acc: seq<Task>, key: Task -> string): (m: map<string, seq<Task>>)
    ensures forall k :: k in m <==> k in Keys(acc, key)
  {
    map k | k in Keys(acc, key) :: []
  }

  /**
   * What the item maps of the builder hold, as values: the key order of the
   * root project map, the build files under each root, the first task of
   * each build file and group key, the group keys and tasks under each
   * project, the tasks under each group, and the task of each id.
   */
  datatype Layout = Layout(
    rootOrder: seq<string>,
    rootProjects: map<string, seq<string>>,
    projectFirst: map<string, Task>,
    projectGroups: map<string, seq<string>>,
    projectTasks: map<string, seq<Task>>,
    groupFirst: map<string, Task>,
    groupTasks: map<string, seq<Task>>,
    taskIds: map<string, Task>)

  /** The layout after the accepted tasks `acc`; a collapsed view makes no groups and lists tasks under projects. */
  function LayoutOf(acc: seq<Task>, collapsed: bool): Layout
  {
    Layout(
      Dedup(Keys(acc, FolderKey)),
      RootProjects(acc),
      FirstMap(acc, BuildFileKey),
      ProjectGroups(acc, collapsed),
      if collapsed then FilterMap(acc, BuildFileKey) else EmptyLists(acc, BuildFileKey),
      if collapsed then map[] else FirstMap(acc, GroupKey),
      if collapsed then map[] else FilterMap(acc, GroupKey),
      LastMap(acc, IdKey))
  }

  /** A root project item for the task's folder, unless there is one. */
  function WithRoot(l: Layout, t: Task): Layout
  {
    var f := FolderKey(t);
    var known := f in l.rootProjects;
    Layout(
      if known then l.rootOrder else l.rootOrder + [f],
      if known then l.rootProjects else l.rootProjects[f := []],
      l.projectFirst, l.projectGroups, l.projectTasks, l.groupFirst, l.groupTasks, l.taskIds)
  }

  /** A project item for the task's build file, listed under its root, unless there is one. */
  function WithProject(l: Layout, t: Task): Layout
  {
    var b := BuildFileKey(t);
    var known := b in l.projectFirst;
    Layout(
      l.rootOrder,
      if known then l.rootProjects else Append(l.rootProjects, FolderKey(t), b),
      if known then l.projectFirst else l.projectFirst[b := t],
      if known then l.projectGroups else l.projectGroups[b := []],
      if known then l.projectTasks else l.projectTasks[b := []],
      l.groupFirst, l.groupTasks, l.taskIds)
  }

  /** A group item for the task's group key, listed under its project, unless there is one. */
  function WithGroup(l: Layout, t: Task): Layout
  {
    var g := GroupKey(t);
    var known := g in l.groupFirst;
    Layout(
      l.rootOrder, l.rootProjects, l.projectFirst,
      if known then l.projectGroups else Append(l.projectGroups, BuildFileKey(t), g),
      l.projectTasks,
      if known then l.groupFirst else l.groupFirst[g := t],
      if known then l.groupTasks else l.groupTasks[g := []],
      l.taskIds)
  }

  /** The task's item, listed under its project or group and recorded under its id. */
  function WithTask(l: Layout, t: Task, collapsed: bool): Layout
  {
    Layout(
      l.rootOrder, l.rootProjects, l.projectFirst, l.projectGroups,
      if collapsed then Append(l.projectTasks, BuildFileKey(t), t) else l.projectTasks,
      l.groupFirst,
      if collapsed then l.groupTasks else Append(l.groupTasks, GroupKey(t), t),
      l.taskIds[IdKey(t) := t])
  }

  /** The item a task is listed under: its project's when collapsed, otherwise its group's, made where missing. */
  function WithParent(l: Layout, t: Task, collapsed: bool): Layout
  {
    if collapsed then l else WithGroup(l, t)
  }

  /** One turn of the builder's loop on an accepted task. */
  function Step(l: Layout, t: Task, collapsed: bool): Layout
  {
    WithTask(WithParent(WithProject(WithRoot(l, t), t), t, collapsed), t, collapsed)
  }

  lemma FirstMapSnoc(acc: seq<Task>, t: Task, key: Task -> string)
    ensures FirstMap(acc + [t], key) ==
      if key(t) in FirstMap(acc, key) then FirstMap(acc, key) else FirstMap(acc, key)[key(t) := t]
  {
    KeysSnoc(acc, t, key);
    forall k | k in Keys(acc + [t], key)
      ensures First(acc + [t], key, k) == if k in Keys(acc, key) then First(acc, key, k) else t
    {
      FirstAppend(acc, t, key, k);
    }
  }

  /** No task of `ts` has a key that is not among its keys. */
  lemma FilterAbsent(ts: seq<Task>, key: Task -> string, k: string)
    requires k !in Keys(ts, key)
    ensures Filter(ts, key, k) == []
  {
    var r := Filter(ts, key, k);
    if r != [] {
      assert r[0] in r;
      KeyIn(ts, r[0], key);
    }
  }

  lemma FilterMapSnoc(acc: seq<Task>, t: Task, key: Task -> string)
    ensures FilterMap(acc + [t], key) == Append(FilterMap(acc, key), key(t), t)
  {
    KeysSnoc(acc, t, key);
    if key(t) !in Keys(acc, key) {
      FilterAbsent(acc, key, key(t));
    }
    forall k | k in Keys(acc + [t], key)
      ensures Filter(acc + [t], key, k) == Filter(acc, key, k) + (if key(t) == k then [t] else [])
    {
      FilterSnoc(acc, t, key, k);
    }
  }

  lemma LastMapSnoc(acc: seq<Task>, t: Task, key: Task -> string)
    ensures LastMap(acc + [t], key) == LastMap(acc, key)[key(t) := t]
  {
    KeysSnoc(acc, t, key);
    forall k | k in Keys(acc + [t], key)
      ensures Last(acc + [t], key, k) == if k == key(t) then t else Last(acc, key, k)
    {
      LastSnoc(acc, t, key, k);
    }
  }

  lemma EmptyListsSnoc(acc: seq<Task>, t: Task, key: Task -> string)
    ensures EmptyLists(acc + [t], key) == EmptyLists(acc, key)[key(t) := []]
  {
    KeysSnoc(acc, t, key);
  }

  /** Each field of `Step`, written out. */
  lemma StepFields(l: Layout, t: Task, collapsed: bool)
    ensures var f, b, g, s := FolderKey(t), BuildFileKey(t), GroupKey(t), Step(l, t, collapsed);
      && s.rootOrder == (if f in l.rootProjects then l.rootOrder else l.rootOrder + [f])
      && s.rootProjects ==
           (var r := if f in l.rootProjects then l.rootProjects else l.rootProjects[f := []];
            if b in l.projectFirst then r else Append(r, f, b))
      && s.projectFirst == (if b in l.projectFirst then l.projectFirst else l.projectFirst[b := t])
      && s.projectGroups ==
           (var r := if b in l.projectFirst then l.projectGroups else l.projectGroups[b := []];
            if collapsed || g in l.groupFirst then r else Append(r, b, g))
      && s.projectTasks ==
           (var r := if b in l.projectFirst then l.projectTasks else l.projectTasks[b := []];
            if collapsed then Append(r, b, t) else r)
      && s.groupFirst == (if collapsed || g in l.groupFirst then l.groupFirst else l.groupFirst[g := t])
      && s.groupTasks ==
           (var r := if collapsed || g in l.groupFirst then l.groupTasks else l.groupTasks[g := []];
            if collapsed then r else Append(r, g, t))
      && s.taskIds == l.taskIds[IdKey(t) := t]
  {
  }

  lemma LayoutStepRoots(acc: seq<Task>, t: Task, collapsed: bool)
    ensures LayoutOf(acc + [t], collapsed).rootOrder == Step(LayoutOf(acc, collapsed), t, collapsed).rootOrder
    ensures LayoutOf(acc + [t], collapsed).rootProjects == Step(LayoutOf(acc, collapsed), t, collapsed).rootProjects
  {
    StepFields(LayoutOf(acc, collapsed), t, collapsed);
    assert (acc + [t])[..|acc|] == acc;
    KeysSnoc(acc, t, FolderKey);
    DedupSnoc(Keys(acc, FolderKey), FolderKey(t));
    RootProjectsKeys(acc);
  }

  lemma LayoutStepProjects(acc: seq<Task>, t: Task, collapsed: bool)
    ensures LayoutOf(acc + [t], collapsed).projectFirst == Step(LayoutOf(acc, collapsed), t, collapsed).projectFirst
    ensures LayoutOf(acc + [t], collapsed).projectGroups == Step(LayoutOf(acc, collapsed), t, collapsed).projectGroups
  {
    StepFields(LayoutOf(acc, collapsed), t, collapsed);
    assert (acc + [t])[..|acc|] == acc;
    ProjectGroupsKeys(acc, collapsed);
    FirstMapSnoc(acc, t, BuildFileKey);
  }

  lemma LayoutStepProjectTasks(acc: seq<Task>, t: Task, collapsed: bool)
    ensures LayoutOf(acc + [t], collapsed).projectTasks == Step(LayoutOf(acc, collapsed), t, collapsed).projectTasks
  {
    if collapsed {
      CollapsedProjectTasks(acc, t);
    } else {
      ExpandedProjectTasks(acc, t);
    }
  }

  lemma CollapsedProjectTasks(acc: seq<Task>, t: Task)
    ensures LayoutOf(acc + [t], true).projectTasks == Step(LayoutOf(acc, true), t, true).projectTasks
  {
    var l := LayoutOf(acc, true);
    StepFields(l, t, true);
    FilterMapSnoc(acc, t, BuildFileKey);
    if BuildFileKey(t) !in l.projectFirst {
      AppendAfterBlank(l.projectTasks, BuildFileKey(t), t);
    }
  }

  lemma ExpandedProjectTasks(acc: seq<Task>, t: Task)
    ensures LayoutOf(acc + [t], false).projectTasks == Step(LayoutOf(acc, false), t, false).projectTasks
  {
    var l := LayoutOf(acc, false);
    StepFields(l, t, false);
    EmptyListsSnoc(acc, t, BuildFileKey);
    if BuildFileKey(t) in l.projectFirst {
      UpdateSame(l.projectTasks, BuildFileKey(t), []);
    }
  }

  lemma LayoutStepGroups(acc: seq<Task>, t: Task, collapsed: bool)
    ensures LayoutOf(acc + [t], collapsed).groupFirst == Step(LayoutOf(acc, collapsed), t, collapsed).groupFirst
    ensures LayoutOf(acc + [t], collapsed).groupTasks == Step(LayoutOf(acc, collapsed), t, collapsed).groupTasks
    ensures LayoutOf(acc + [t], collapsed).taskIds == Step(LayoutOf(acc, collapsed), t, collapsed).taskIds
  {
    var l := LayoutOf(acc, collapsed);
    StepFields(l, t, collapsed);
    if !collapsed {
      FirstMapSnoc(acc, t, GroupKey);
      FilterMapSnoc(acc, t, GroupKey);
      if GroupKey(t) !in l.groupFirst {
        AppendAfterBlank(l.groupTasks, GroupKey(t), t);
      }
    }
    LastMapSnoc(acc, t, IdKey);
  }

  /** The builder's loop keeps its maps equal to the layout of the tasks accepted so far. */
  lemma LayoutStep(acc: seq<Task>, t: Task, collapsed: bool)
    ensures LayoutOf(acc + [t], collapsed) == Step(LayoutOf(acc, collapsed), t, collapsed)
  {
    LayoutStepRoots(acc, t, collapsed);
    LayoutStepProjects(acc, t, collapsed);
    LayoutStepProjectTasks(acc, t, collapsed);
    LayoutStepGroups(acc, t, collapsed);
  }
}
