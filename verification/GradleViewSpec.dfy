/**
 * What `buildTaskTree` of the older task view builds, stated over the placed
 * tasks. Workspace folder items are keyed by scope name, nested folder items
 * by the path of the project folder relative to the workspace folder,
 * project items by root project name (collapsed view) or project name, and
 * group items by `group + project`; each map keeps the item made for the
 * first task with the key.
 */
module GradleViewSpec {
  import opened Collation
  import opened TaskDefinitions
  import opened TaskTreeSpec

  /** The folder item a task's project item goes under: a workspace folder's, or a nested project folder's. */
  datatype Folder = Top(name: string) | Nested(path: string)

  /** `task.scope.name` and `task.scope.uri`; only read for workspace-scoped tasks. */
  function ScopeName(t: Task): string { if t.scope.WorkspaceFolder? then t.scope.name else "" }
  function ScopeUri(t: Task): string { if t.scope.WorkspaceFolder? then t.scope.uri else "" }

  /** The task's project folder is not its workspace folder. */
  predicate Nests(t: Task) { t.definition.projectFolder != t.definition.workspaceFolder }

  /** Folds one folder name into a normalised path: `` and `.` are dropped, `..` takes back the last name. */
  function Step(names: seq<string>, name: string): seq<string>
  {
    if name == "" || name == "." then names
    else if name == ".." then (if names == [] then [] else names[..|names| - 1])
    else names + [name]
  }

  /** Reads `p` up to each `/`, folding the name read so far into `names`. */
  function Walk(p: string, names: seq<string>, name: string): seq<string>
    decreases |p|
  {
    if p == [] then Step(names, name)
    else if p[0] == '/' then Walk(p[1..], Step(names, name), "")
    else Walk(p[1..], names, name + [p[0]])
  }

  /** The folders of the absolute POSIX path `p`, root first, as `path.resolve` normalises it. */
  function Segments(p: string): seq<string>
  {
    Walk(p, [], "")
  }

  /** The names joined with `/`. */
  function Join(names: seq<string>): string
  {
    if names == [] then ""
    else if |names| == 1 then names[0]
    else names[0] + "/" + Join(names[1..])
  }

  /** `k` times `..`. */
  function Ups(k: nat): seq<string>
  {
    if k == 0 then [] else [".."] + Ups(k - 1)
  }

  /** Drops the folders `f` and `t` share, then climbs out of the rest of `f` and down into the rest of `t`. */
  function Climb(f: seq<string>, t: seq<string>): string
  {
    if f != [] && t != [] && f[0] == t[0] then Climb(f[1..], t[1..])
    else Join(Ups(|f|) + t)
  }

  /**
   * `path.relative(from, to)` on POSIX paths: one `..` for each folder of
   * `from` below the folders the two share, then the rest of `to`.
   */
  function Relative(from: string, to: string): string
  {
    Climb(Segments(from), Segments(to))
  }

  /** A folder name: not empty, not `.` or `..`, and without a separator. */
  predicate PlainName(x: string) { x != "" && x != "." && x != ".." && '/' !in x }

  lemma {:induction false} WalkWord(w: string, rest: string, names: seq<string>, name: string)
    requires '/' !in w
    ensures Walk(w + rest, names, name) == Walk(rest, names, name + w)
  {
    if w == [] {
      assert w + rest == rest && name + w == name;
    } else {
      assert (w + rest)[0] == w[0] != '/';
      assert (w + rest)[1..] == w[1..] + rest;
      assert name + w == (name + [w[0]]) + w[1..];
      WalkWord(w[1..], rest, names, name + [w[0]]);
    }
  }

  lemma WalkSeparator(tail: string, names: seq<string>, name: string)
    ensures Walk("/" + tail, names, name) == Walk(tail, Step(names, name), "")
  {
    assert ("/" + tail)[0] == '/' && ("/" + tail)[1..] == tail;
  }

  lemma WalkName(name: string, before: seq<string>)
    requires PlainName(name)
    ensures Walk(name, before, "") == before + [name]
  {
    WalkWord(name, "", before, "");
    assert name + "" == name && "" + name == name;
  }

  lemma WalkFirstName(name: string, tail: string, before: seq<string>)
    requires PlainName(name)
    ensures Walk(name + "/" + tail, before, "") == Walk(tail, before + [name], "")
  {
    assert name + "/" + tail == name + ("/" + tail);
    WalkWord(name, "/" + tail, before, "");
    assert "" + name == name;
    WalkSeparator(tail, before, name);
  }

  lemma {:induction false} WalkJoin(names: seq<string>, before: seq<string>)
    requires names != [] && forall i :: 0 <= i < |names| ==> PlainName(names[i])
    ensures Walk(Join(names), before, "") == before + names
  {
    if |names| == 1 {
      WalkName(names[0], before);
      assert names == [names[0]];
    } else {
      WalkFirstName(names[0], Join(names[1..]), before);
      WalkJoin(names[1..], before + [names[0]]);
      assert before + [names[0]] + names[1..] == before + names;
    }
  }

  /** The folders of an absolute path written with plain names are those names. */
  lemma SegmentsOfPath(names: seq<string>)
    requires names != [] && forall i :: 0 <= i < |names| ==> PlainName(names[i])
    ensures Segments("/" + Join(names)) == names
  {
    assert ("/" + Join(names))[0] == '/' && ("/" + Join(names))[1..] == Join(names);
    WalkJoin(names, []);
  }

  lemma {:induction false} WalkTrailing(p: string, names: seq<string>, name: string)
    ensures Walk(p + "/", names, name) == Walk(p, names, name)
    decreases |p|
  {
    if p == [] {
      assert [] + "/" == "/" && "/"[1..] == "";
    } else {
      assert (p + "/")[0] == p[0] && (p + "/")[1..] == p[1..] + "/";
      if p[0] == '/' {
        WalkTrailing(p[1..], Step(names, name), "");
      } else {
        WalkTrailing(p[1..], names, name + [p[0]]);
      }
    }
  }

  /** A trailing separator names the same folder. */
  lemma TrailingSeparator(p: string)
    ensures Segments(p + "/") == Segments(p)
  {
    WalkTrailing(p, [], "");
  }

  lemma {:induction false} ClimbDown(f: seq<string>, below: seq<string>)
    ensures Climb(f, f + below) == Join(below)
  {
    if f == [] {
      assert Ups(0) + ([] + below) == below;
    } else {
      assert (f + below)[0] == f[0] && (f + below)[1..] == f[1..] + below;
      ClimbDown(f[1..], below);
    }
  }

  lemma {:induction false} ClimbAcross(parent: seq<string>, a: string, b: string)
    requires a != b
    ensures Climb(parent + [a], parent + [b]) == "../" + b
  {
    if parent == [] {
      assert [] + [a] == [a] && [] + [b] == [b];
      assert Ups(1) + [b] == ["..", b];
      assert Join(["..", b]) == ".." + "/" + Join([b]);
    } else {
      assert (parent + [a])[1..] == parent[1..] + [a] && (parent + [b])[1..] == parent[1..] + [b];
      ClimbAcross(parent[1..], a, b);
    }
  }

  /** A folder relative to itself, however it is written, is the empty path. */
  lemma RelativeToItself(from: string, to: string)
    requires Segments(from) == Segments(to)
    ensures Relative(from, to) == ""
  {
    ClimbDown(Segments(from), []);
    assert Segments(from) + [] == Segments(to);
  }

  /** A folder inside `from` is given by the names below `from`, joined. */
  lemma RelativeInside(from: string, to: string, below: seq<string>)
    requires Segments(to) == Segments(from) + below
    ensures Relative(from, to) == Join(below)
  {
    ClimbDown(Segments(from), below);
  }

  /** Two folders under a common parent: up one level, then down into the other. */
  lemma RelativeSibling(from: string, to: string, parent: seq<string>, a: string, b: string)
    requires Segments(from) == parent + [a] && Segments(to) == parent + [b] && a != b
    ensures Relative(from, to) == "../" + b
  {
    ClimbAcross(parent, a, b);
  }

  lemma WorkspaceWithSeparator()
    ensures Segments("/w/") == ["w"]
  {
    assert "/" + Join(["w"]) == "/w";
    SegmentsOfPath(["w"]);
    TrailingSeparator("/w");
    assert "/w" + "/" == "/w/";
  }

  /** A trailing separator on the workspace folder does not change the relative path. */
  lemma RelativeTrailingExample()
    ensures Relative("/w/", "/w/sub") == "sub"
  {
    WorkspaceWithSeparator();
    assert "/" + Join(["w", "sub"]) == "/w/sub";
    SegmentsOfPath(["w", "sub"]);
    assert Segments("/w/sub") == ["w"] + ["sub"];
    RelativeInside("/w/", "/w/sub", ["sub"]);
  }

  /** A sibling folder is reached through `..`. */
  lemma RelativeSiblingExample()
    ensures Relative("/w/a", "/w/b") == "../b"
  {
    assert Join(["w", "a"]) == "w/a" && Join(["w", "b"]) == "w/b";
    SegmentsOfPath(["w", "a"]);
    SegmentsOfPath(["w", "b"]);
    assert ["w", "a"] == ["w"] + ["a"] && ["w", "b"] == ["w"] + ["b"];
    RelativeSibling("/w/a", "/w/b", ["w"], "a", "b");
  }

  /** The key of a nested folder item: the project folder relative to the workspace folder. */
  function RelativePath(t: Task): string
  {
    Relative(t.definition.workspaceFolder, t.definition.projectFolder)
  }

  /** The folder item the task's project item is put in when the project item is made. */
  function FolderOf(t: Task): Folder
  {
    if Nests(t) then Nested(RelativePath(t)) else Top(ScopeName(t))
  }

  function RootProjectName(t: Task): string { t.definition.rootProject }
  function ProjectName(t: Task): string { t.definition.project }

  /** The key of the project item: the root project's name in a collapsed view, the project's otherwise. */
  function ProjectKey(collapsed: bool): Task -> string
  {
    if collapsed then RootProjectName else ProjectName
  }

  /** The label of a task's item: the whole script in a collapsed view, its last `:`-segment otherwise. */
  function ItemLabel(t: Task, collapsed: bool): string
  {
    var script := t.definition.script;
    if collapsed then script else Split(script, ':')[|Split(script, ':')| - 1]
  }

  /** An expanded view's label is the task's own name, with no ':' left in it. */
  lemma ItemLabelIsTaskName(t: Task, collapsed: bool)
    ensures collapsed ==> ItemLabel(t, collapsed) == t.definition.script
    ensures !collapsed ==> ItemLabel(t, collapsed) == TaskName(t.definition.script)
    ensures !collapsed ==> ':' !in ItemLabel(t, collapsed)
  {
    SplitLastIsTaskName(t.definition.script);
    TaskNameIsLastSegment(t.definition.script);
  }

  /** A task is placed when it is scoped to a workspace folder and names a build file. */
  predicate IsPlaced(t: Task)
  {
    t.scope.WorkspaceFolder? && t.definition.buildFile != ""
  }

  /** The tasks that are placed, in order; the others are passed over. */
  function Placed(tasks: seq<Task>): (acc: seq<Task>)
    ensures |acc| <= |tasks|
    ensures forall t :: t in acc ==> t in tasks && IsPlaced(t)
    ensures forall t :: t in tasks && IsPlaced(t) ==> t in acc
  {
    if tasks == [] then []
    else
      var prefix := Placed(tasks[..|tasks| - 1]);
      var t := tasks[|tasks| - 1];
      assert forall u :: u in tasks ==> u in tasks[..|tasks| - 1] || u == t;
      if IsPlaced(t) then prefix + [t] else prefix
  }

  /** The tasks of `acc` whose project folder is nested, in order. */
  function NestedTasks(acc: seq<Task>): (ns: seq<Task>)
    ensures forall t :: t in ns <==> t in acc && Nests(t)
  {
    if acc == [] then []
    else
      var t := acc[|acc| - 1];
      assert forall u :: u in acc ==> u in acc[..|acc| - 1] || u == t;
      NestedTasks(acc[..|acc| - 1]) + (if Nests(t) then [t] else [])
  }

  // ---------------------------------------------------------------------------
  // The lists the items keep
  // ---------------------------------------------------------------------------

  /**
   * The nested folders each workspace folder item lists, by scope name: a
   * workspace gets an empty list when its scope first occurs, and a
   * relative path is appended to the list of the scope of the task that
   * first has it.
   */
  function TopFolders(acc: seq<Task>): map<string, seq<string>>
  {
    if acc == [] then map[]
    else
      var prefix, t := acc[..|acc| - 1], acc[|acc| - 1];
      var prev := TopFolders(prefix);
      var withTop := if ScopeName(t) in prev then prev else prev[ScopeName(t) := []];
      if Nests(t) && RelativePath(t) !in Keys(NestedTasks(prefix), RelativePath)
      then Append(withTop, ScopeName(t), RelativePath(t))
      else withTop
  }

  /**
   * The project keys each workspace folder item lists, by scope name: a
   * workspace gets an empty list when its scope first occurs, and a project
   * key is appended to the list of the scope of the task that first has it
   * when that task's project folder is the workspace folder.
   */
  function TopProjects(acc: seq<Task>, collapsed: bool): map<string, seq<string>>
  {
    if acc == [] then map[]
    else
      var prefix, t := acc[..|acc| - 1], acc[|acc| - 1];
      var prev := TopProjects(prefix, collapsed);
      var withTop := if ScopeName(t) in prev then prev else prev[ScopeName(t) := []];
      if Nests(t) || ProjectKey(collapsed)(t) in Keys(prefix, ProjectKey(collapsed)) then withTop
      else Append(withTop, ScopeName(t), ProjectKey(collapsed)(t))
  }

  /**
   * The project keys each nested folder item lists, by relative path: a
   * nested folder gets an empty list when its path first occurs, and a
   * project key is appended to the list of the path of the task that first
   * has it when that task's project folder is nested.
   */
  function NestedProjects(acc: seq<Task>, collapsed: bool): map<string, seq<string>>
  {
    if acc == [] then map[]
    else
      var prefix, t := acc[..|acc| - 1], acc[|acc| - 1];
      var prev := NestedProjects(prefix, collapsed);
      var withNested := if Nests(t) && RelativePath(t) !in prev then prev[RelativePath(t) := []] else prev;
      if !Nests(t) || ProjectKey(collapsed)(t) in Keys(prefix, ProjectKey(collapsed)) then withNested
      else Append(withNested, RelativePath(t), ProjectKey(collapsed)(t))
  }

  /**
   * The group keys each project item lists, by project key: a project gets
   * an empty list when its key first occurs, and unless the view is
   * collapsed a group key is appended to the list of the project of the
   * task that first has it.
   */
  function GroupsOf(acc: seq<Task>, collapsed: bool): map<string, seq<string>>
  {
    if acc == [] then map[]
    else
      var prefix, t := acc[..|acc| - 1], acc[|acc| - 1];
      var prev := GroupsOf(prefix, collapsed);
      var k := ProjectKey(collapsed)(t);
      var withProject := if k in prev then prev else prev[k := []];
      if collapsed || GroupKey(t) in Keys(prefix, GroupKey) then withProject
      else Append(withProject, k, GroupKey(t))
  }

  /**
   * What the four maps of `buildTaskTree` and the items in them hold, as
   * values: the order the workspace folder items were made in, the first
   * task of each workspace, nested folder, project and group key, the nested
   * folders of each workspace, the project keys of each folder, the group
   * keys and tasks of each project, and the tasks of each group.
   */
  datatype ViewLayout = ViewLayout(
    topOrder: seq<string>,
    topFirst: map<string, Task>,
    topFolders: map<string, seq<string>>,
    nestedFirst: map<string, Task>,
    topProjects: map<string, seq<string>>,
    nestedProjects: map<string, seq<string>>,
    projectFirst: map<string, Task>,
    projectGroups: map<string, seq<string>>,
    projectTasks: map<string, seq<Task>>,
    groupFirst: map<string, Task>,
    groupTasks: map<string, seq<Task>>)

  /** The layout after the placed tasks `acc`; a collapsed view makes no groups and lists tasks under projects. */
  function ViewOf(acc: seq<Task>, collapsed: bool): ViewLayout
  {
    var pk := ProjectKey(collapsed);
    ViewLayout(
      Dedup(Keys(acc, ScopeName)),
      FirstMap(acc, ScopeName),
      TopFolders(acc),
      FirstMap(NestedTasks(acc), RelativePath),
      TopProjects(acc, collapsed),
      NestedProjects(acc, collapsed),
      FirstMap(acc, pk),
      GroupsOf(acc, collapsed),
      if collapsed then FilterMap(acc, pk) else EmptyLists(acc, pk),
      if collapsed then map[] else FirstMap(acc, GroupKey),
      if collapsed then map[] else FilterMap(acc, GroupKey))
  }

  // ---------------------------------------------------------------------------
  // One turn of the loop
  // ---------------------------------------------------------------------------

  // The loop's statements on a placed task `t`, field by field: first the
  // workspace folder item of its scope, then, for a nested project folder,
  // the nested folder item, then the project item, then (expanded view) the
  // group item, and last the task's own item. Each reads the layout `l` the
  // turn starts from.

  /** The task's project key, as `ProjectKey(collapsed)` reads it. */
  function KeyOf(t: Task, collapsed: bool): (k: string)
    ensures k == ProjectKey(collapsed)(t)
  {
    if collapsed then t.definition.rootProject else t.definition.project
  }

  /** A workspace folder item is made for the task's scope unless there is one. */
  function TopOrderAfter(l: ViewLayout, t: Task): seq<string>
  {
    if ScopeName(t) in l.topFirst then l.topOrder else l.topOrder + [ScopeName(t)]
  }

  function TopFirstAfter(l: ViewLayout, t: Task): map<string, Task>
  {
    if ScopeName(t) in l.topFirst then l.topFirst else l.topFirst[ScopeName(t) := t]
  }

  /** A new workspace folder item lists no folders and no projects. */
  function TopFoldersWithTop(l: ViewLayout, t: Task): map<string, seq<string>>
  {
    if ScopeName(t) in l.topFirst then l.topFolders else l.topFolders[ScopeName(t) := []]
  }

  function TopProjectsWithTop(l: ViewLayout, t: Task): map<string, seq<string>>
  {
    if ScopeName(t) in l.topFirst then l.topProjects else l.topProjects[ScopeName(t) := []]
  }

  /** A nested project folder gets a folder item, added to the workspace's folders, unless there is one. */
  predicate MakesNested(l: ViewLayout, t: Task)
  {
    Nests(t) && RelativePath(t) !in l.nestedFirst
  }

  function TopFoldersAfter(l: ViewLayout, t: Task): map<string, seq<string>>
  {
    if MakesNested(l, t) then Append(TopFoldersWithTop(l, t), ScopeName(t), RelativePath(t)) else TopFoldersWithTop(l, t)
  }

  function NestedFirstAfter(l: ViewLayout, t: Task): map<string, Task>
  {
    if MakesNested(l, t) then l.nestedFirst[RelativePath(t) := t] else l.nestedFirst
  }

  function NestedProjectsWithNested(l: ViewLayout, t: Task): map<string, seq<string>>
  {
    if MakesNested(l, t) then l.nestedProjects[RelativePath(t) := []] else l.nestedProjects
  }

  /** A project item is made for the task's project key unless there is one, and added to the task's folder item. */
  function TopProjectsAfter(l: ViewLayout, t: Task, collapsed: bool): map<string, seq<string>>
  {
    if KeyOf(t, collapsed) in l.projectFirst || Nests(t) then TopProjectsWithTop(l, t)
    else Append(TopProjectsWithTop(l, t), ScopeName(t), KeyOf(t, collapsed))
  }

  function NestedProjectsAfter(l: ViewLayout, t: Task, collapsed: bool): map<string, seq<string>>
  {
    if KeyOf(t, collapsed) in l.projectFirst || !Nests(t) then NestedProjectsWithNested(l, t)
    else Append(NestedProjectsWithNested(l, t), RelativePath(t), KeyOf(t, collapsed))
  }

  function ProjectFirstAfter(l: ViewLayout, t: Task, collapsed: bool): map<string, Task>
  {
    if KeyOf(t, collapsed) in l.projectFirst then l.projectFirst else l.projectFirst[KeyOf(t, collapsed) := t]
  }

  /** A new project item lists no groups and no tasks. */
  function ProjectGroupsWithProject(l: ViewLayout, t: Task, collapsed: bool): map<string, seq<string>>
  {
    if KeyOf(t, collapsed) in l.projectFirst then l.projectGroups else l.projectGroups[KeyOf(t, collapsed) := []]
  }

  function ProjectTasksWithProject(l: ViewLayout, t: Task, collapsed: bool): map<string, seq<Task>>
  {
    if KeyOf(t, collapsed) in l.projectFirst then l.projectTasks else l.projectTasks[KeyOf(t, collapsed) := []]
  }

  /** In an expanded view a group item is made for the task's group key unless there is one, and added to the project item. */
  predicate MakesGroup(l: ViewLayout, t: Task, collapsed: bool)
  {
    !collapsed && GroupKey(t) !in l.groupFirst
  }

  function ProjectGroupsAfter(l: ViewLayout, t: Task, collapsed: bool): map<string, seq<string>>
  {
    if MakesGroup(l, t, collapsed) then Append(ProjectGroupsWithProject(l, t, collapsed), KeyOf(t, collapsed), GroupKey(t))
    else ProjectGroupsWithProject(l, t, collapsed)
  }

  function GroupFirstAfter(l: ViewLayout, t: Task, collapsed: bool): map<string, Task>
  {
    if MakesGroup(l, t, collapsed) then l.groupFirst[GroupKey(t) := t] else l.groupFirst
  }

  function GroupTasksWithGroup(l: ViewLayout, t: Task, collapsed: bool): map<string, seq<Task>>
  {
    if MakesGroup(l, t, collapsed) then l.groupTasks[GroupKey(t) := []] else l.groupTasks
  }

  /** The task's item goes to its project item in a collapsed view, to its group item otherwise. */
  function ProjectTasksAfter(l: ViewLayout, t: Task, collapsed: bool): map<string, seq<Task>>
  {
    if collapsed then Append(ProjectTasksWithProject(l, t, collapsed), KeyOf(t, collapsed), t)
    else ProjectTasksWithProject(l, t, collapsed)
  }

  function GroupTasksAfter(l: ViewLayout, t: Task, collapsed: bool): map<string, seq<Task>>
  {
    if collapsed then GroupTasksWithGroup(l, t, collapsed)
    else Append(GroupTasksWithGroup(l, t, collapsed), GroupKey(t), t)
  }

  /** One turn of the loop of `buildTaskTree` on a placed task. */
  function Turn(l: ViewLayout, t: Task, collapsed: bool): ViewLayout
  {
    ViewLayout(
      TopOrderAfter(l, t), TopFirstAfter(l, t), TopFoldersAfter(l, t), NestedFirstAfter(l, t),
      TopProjectsAfter(l, t, collapsed), NestedProjectsAfter(l, t, collapsed), ProjectFirstAfter(l, t, collapsed),
      ProjectGroupsAfter(l, t, collapsed), ProjectTasksAfter(l, t, collapsed),
      GroupFirstAfter(l, t, collapsed), GroupTasksAfter(l, t, collapsed))
  }

  // ---------------------------------------------------------------------------
  // Which folders, projects and groups there are
  // ---------------------------------------------------------------------------

  lemma NestedTasksSnoc(acc: seq<Task>, t: Task)
    ensures NestedTasks(acc + [t]) == NestedTasks(acc) + (if Nests(t) then [t] else [])
  {
    assert (acc + [t])[..|acc|] == acc;
  }

  /** A workspace folder item is made for every scope of the placed tasks. */
  lemma {:induction false} TopFoldersKeys(acc: seq<Task>)
    ensures forall w :: w in TopFolders(acc) <==> w in Keys(acc, ScopeName)
  {
    if acc != [] {
      var prefix, t := acc[..|acc| - 1], acc[|acc| - 1];
      TopFoldersKeys(prefix);
      assert acc == prefix + [t];
      KeysSnoc(prefix, t, ScopeName);
    }
  }

  /** A workspace folder item lists projects from the moment it is made. */
  lemma {:induction false} TopProjectsKeys(acc: seq<Task>, collapsed: bool)
    ensures forall w :: w in TopProjects(acc, collapsed) <==> w in Keys(acc, ScopeName)
  {
    if acc != [] {
      var prefix, t := acc[..|acc| - 1], acc[|acc| - 1];
      TopProjectsKeys(prefix, collapsed);
      assert acc == prefix + [t];
      KeysSnoc(prefix, t, ScopeName);
    }
  }

  /** A nested folder item is made for every relative path of a nested project folder of the placed tasks. */
  lemma {:induction false} NestedProjectsKeys(acc: seq<Task>, collapsed: bool)
    ensures forall p :: p in NestedProjects(acc, collapsed) <==> p in Keys(NestedTasks(acc), RelativePath)
  {
    if acc != [] {
      var prefix, t := acc[..|acc| - 1], acc[|acc| - 1];
      NestedProjectsKeys(prefix, collapsed);
      assert acc == prefix + [t];
      NestedTasksSnoc(prefix, t);
      if Nests(t) {
        KeysSnoc(NestedTasks(prefix), t, RelativePath);
      } else {
        assert NestedTasks(acc) == NestedTasks(prefix);
      }
    }
  }

  /** A project item is made for every project key of the placed tasks. */
  lemma {:induction false} GroupsOfKeys(acc: seq<Task>, collapsed: bool)
    ensures forall k :: k in GroupsOf(acc, collapsed) <==> k in Keys(acc, ProjectKey(collapsed))
  {
    if acc != [] {
      var prefix, t := acc[..|acc| - 1], acc[|acc| - 1];
      GroupsOfKeys(prefix, collapsed);
      assert acc == prefix + [t];
      KeysSnoc(prefix, t, ProjectKey(collapsed));
    }
  }

  // ---------------------------------------------------------------------------
  // The layout after one more task
  // ---------------------------------------------------------------------------

  lemma TopFoldersSnoc(acc: seq<Task>, t: Task)
    ensures TopFolders(acc + [t]) ==
      (var prev := TopFolders(acc);
       var withTop := if ScopeName(t) in prev then prev else prev[ScopeName(t) := []];
       if Nests(t) && RelativePath(t) !in Keys(NestedTasks(acc), RelativePath)
       then Append(withTop, ScopeName(t), RelativePath(t))
       else withTop)
  {
    assert (acc + [t])[..|acc|] == acc;
  }

  lemma TopProjectsSnoc(acc: seq<Task>, t: Task, collapsed: bool)
    ensures TopProjects(acc + [t], collapsed) ==
      (var prev := TopProjects(acc, collapsed);
       var withTop := if ScopeName(t) in prev then prev else prev[ScopeName(t) := []];
       if Nests(t) || ProjectKey(collapsed)(t) in Keys(acc, ProjectKey(collapsed)) then withTop
       else Append(withTop, ScopeName(t), ProjectKey(collapsed)(t)))
  {
    assert (acc + [t])[..|acc|] == acc;
  }

  lemma NestedProjectsSnoc(acc: seq<Task>, t: Task, collapsed: bool)
    ensures NestedProjects(acc + [t], collapsed) ==
      (var prev := NestedProjects(acc, collapsed);
       var withNested := if Nests(t) && RelativePath(t) !in prev then prev[RelativePath(t) := []] else prev;
       if !Nests(t) || ProjectKey(collapsed)(t) in Keys(acc, ProjectKey(collapsed)) then withNested
       else Append(withNested, RelativePath(t), ProjectKey(collapsed)(t)))
  {
    assert (acc + [t])[..|acc|] == acc;
  }

  lemma GroupsOfSnoc(acc: seq<Task>, t: Task, collapsed: bool)
    ensures GroupsOf(acc + [t], collapsed) ==
      (var prev := GroupsOf(acc, collapsed);
       var k := ProjectKey(collapsed)(t);
       var withProject := if k in prev then prev else prev[k := []];
       if collapsed || GroupKey(t) in Keys(acc, GroupKey) then withProject
       else Append(withProject, k, GroupKey(t)))
  {
    assert (acc + [t])[..|acc|] == acc;
  }

  lemma TopOrderTurn(acc: seq<Task>, t: Task, l: ViewLayout)
    requires l.topOrder == Dedup(Keys(acc, ScopeName)) && l.topFirst == FirstMap(acc, ScopeName)
    ensures Dedup(Keys(acc + [t], ScopeName)) == TopOrderAfter(l, t)
  {
    KeysSnoc(acc, t, ScopeName);
    DedupSnoc(Keys(acc, ScopeName), ScopeName(t));
  }

  lemma TopFirstTurn(acc: seq<Task>, t: Task, l: ViewLayout)
    requires l.topFirst == FirstMap(acc, ScopeName)
    ensures FirstMap(acc + [t], ScopeName) == TopFirstAfter(l, t)
  {
    FirstMapSnoc(acc, t, ScopeName);
  }

  lemma TopFoldersTurn(acc: seq<Task>, t: Task, l: ViewLayout)
    requires l.topFirst == FirstMap(acc, ScopeName) && l.nestedFirst == FirstMap(NestedTasks(acc), RelativePath)
    requires l.topFolders == TopFolders(acc)
    ensures TopFolders(acc + [t]) == TopFoldersAfter(l, t)
  {
    TopFoldersSnoc(acc, t);
    TopFoldersKeys(acc);
    assert (ScopeName(t) in TopFolders(acc)) == (ScopeName(t) in l.topFirst);
  }

  lemma NestedFirstTurn(acc: seq<Task>, t: Task, l: ViewLayout)
    requires l.nestedFirst == FirstMap(NestedTasks(acc), RelativePath)
    ensures FirstMap(NestedTasks(acc + [t]), RelativePath) == NestedFirstAfter(l, t)
  {
    NestedTasksSnoc(acc, t);
    if Nests(t) {
      FirstMapSnoc(NestedTasks(acc), t, RelativePath);
    } else {
      assert NestedTasks(acc + [t]) == NestedTasks(acc);
    }
  }

  lemma TopProjectsTurn(acc: seq<Task>, t: Task, collapsed: bool, l: ViewLayout)
    requires l.topFirst == FirstMap(acc, ScopeName) && l.projectFirst == FirstMap(acc, ProjectKey(collapsed))
    requires l.topProjects == TopProjects(acc, collapsed)
    ensures TopProjects(acc + [t], collapsed) == TopProjectsAfter(l, t, collapsed)
  {
    TopProjectsSnoc(acc, t, collapsed);
    TopProjectsKeys(acc, collapsed);
    assert (ScopeName(t) in TopProjects(acc, collapsed)) == (ScopeName(t) in l.topFirst);
  }

  lemma NestedProjectsTurn(acc: seq<Task>, t: Task, collapsed: bool, l: ViewLayout)
    requires l.nestedFirst == FirstMap(NestedTasks(acc), RelativePath) && l.projectFirst == FirstMap(acc, ProjectKey(collapsed))
    requires l.nestedProjects == NestedProjects(acc, collapsed)
    ensures NestedProjects(acc + [t], collapsed) == NestedProjectsAfter(l, t, collapsed)
  {
    NestedProjectsSnoc(acc, t, collapsed);
    NestedProjectsKeys(acc, collapsed);
    assert (RelativePath(t) in NestedProjects(acc, collapsed)) == (RelativePath(t) in l.nestedFirst);
  }

  lemma ProjectFirstTurn(acc: seq<Task>, t: Task, collapsed: bool, l: ViewLayout)
    requires l.projectFirst == FirstMap(acc, ProjectKey(collapsed))
    ensures FirstMap(acc + [t], ProjectKey(collapsed)) == ProjectFirstAfter(l, t, collapsed)
  {
    FirstMapSnoc(acc, t, ProjectKey(collapsed));
  }

  lemma ProjectGroupsTurn(acc: seq<Task>, t: Task, collapsed: bool, l: ViewLayout)
    requires l.projectFirst == FirstMap(acc, ProjectKey(collapsed))
    requires l.groupFirst == if collapsed then map[] else FirstMap(acc, GroupKey)
    requires l.projectGroups == GroupsOf(acc, collapsed)
    ensures GroupsOf(acc + [t], collapsed) == ProjectGroupsAfter(l, t, collapsed)
  {
    GroupsOfSnoc(acc, t, collapsed);
    GroupsOfKeys(acc, collapsed);
    assert (KeyOf(t, collapsed) in GroupsOf(acc, collapsed)) == (KeyOf(t, collapsed) in l.projectFirst);
  }

  lemma ProjectTasksTurn(acc: seq<Task>, t: Task, collapsed: bool, l: ViewLayout)
    requires l.projectFirst == FirstMap(acc, ProjectKey(collapsed))
    requires l.projectTasks == if collapsed then FilterMap(acc, ProjectKey(collapsed)) else EmptyLists(acc, ProjectKey(collapsed))
    ensures (if collapsed then FilterMap(acc + [t], ProjectKey(collapsed)) else EmptyLists(acc + [t], ProjectKey(collapsed)))
      == ProjectTasksAfter(l, t, collapsed)
  {
    var pk := ProjectKey(collapsed);
    if collapsed {
      FilterMapSnoc(acc, t, pk);
      if pk(t) !in l.projectFirst {
        AppendAfterBlank(l.projectTasks, pk(t), t);
      }
    } else {
      EmptyListsSnoc(acc, t, pk);
      if pk(t) in l.projectFirst {
        UpdateSame(l.projectTasks, pk(t), []);
      }
    }
  }

  lemma GroupFirstTurn(acc: seq<Task>, t: Task, collapsed: bool, l: ViewLayout)
    requires l.groupFirst == if collapsed then map[] else FirstMap(acc, GroupKey)
    ensures (if collapsed then map[] else FirstMap(acc + [t], GroupKey)) == GroupFirstAfter(l, t, collapsed)
  {
    if !collapsed {
      FirstMapSnoc(acc, t, GroupKey);
    }
  }

  lemma GroupTasksTurn(acc: seq<Task>, t: Task, collapsed: bool, l: ViewLayout)
    requires l.groupFirst == if collapsed then map[] else FirstMap(acc, GroupKey)
    requires l.groupTasks == if collapsed then map[] else FilterMap(acc, GroupKey)
    ensures (if collapsed then map[] else FilterMap(acc + [t], GroupKey)) == GroupTasksAfter(l, t, collapsed)
  {
    if !collapsed {
      FilterMapSnoc(acc, t, GroupKey);
      if GroupKey(t) !in l.groupFirst {
        AppendAfterBlank(l.groupTasks, GroupKey(t), t);
      }
    }
  }

  // Each field of the layout after one more task is that field of `Step`.

  lemma ViewTopOrderStep(acc: seq<Task>, t: Task, collapsed: bool)
    ensures var l := ViewOf(acc, collapsed); ViewOf(acc + [t], collapsed).topOrder == TopOrderAfter(l, t)
  {
    var l := ViewOf(acc, collapsed);
    TopOrderTurn(acc, t, l);
  }

  lemma ViewTopFirstStep(acc: seq<Task>, t: Task, collapsed: bool)
    ensures var l := ViewOf(acc, collapsed); ViewOf(acc + [t], collapsed).topFirst == TopFirstAfter(l, t)
  {
    var l := ViewOf(acc, collapsed);
    TopFirstTurn(acc, t, l);
  }

  lemma ViewTopFoldersStep(acc: seq<Task>, t: Task, collapsed: bool)
    ensures var l := ViewOf(acc, collapsed); ViewOf(acc + [t], collapsed).topFolders == TopFoldersAfter(l, t)
  {
    var l := ViewOf(acc, collapsed);
    TopFoldersTurn(acc, t, l);
  }

  lemma ViewNestedFirstStep(acc: seq<Task>, t: Task, collapsed: bool)
    ensures var l := ViewOf(acc, collapsed); ViewOf(acc + [t], collapsed).nestedFirst == NestedFirstAfter(l, t)
  {
    var l := ViewOf(acc, collapsed);
    NestedFirstTurn(acc, t, l);
  }

  lemma ViewTopProjectsStep(acc: seq<Task>, t: Task, collapsed: bool)
    ensures var l := ViewOf(acc, collapsed); ViewOf(acc + [t], collapsed).topProjects == TopProjectsAfter(l, t, collapsed)
  {
    var l := ViewOf(acc, collapsed);
    TopProjectsTurn(acc, t, collapsed, l);
  }

  lemma ViewNestedProjectsStep(acc: seq<Task>, t: Task, collapsed: bool)
    ensures var l := ViewOf(acc, collapsed); ViewOf(acc + [t], collapsed).nestedProjects == NestedProjectsAfter(l, t, collapsed)
  {
    var l := ViewOf(acc, collapsed);
    NestedProjectsTurn(acc, t, collapsed, l);
  }

  lemma ViewProjectFirstStep(acc: seq<Task>, t: Task, collapsed: bool)
    ensures var l := ViewOf(acc, collapsed); ViewOf(acc + [t], collapsed).projectFirst == ProjectFirstAfter(l, t, collapsed)
  {
    var l := ViewOf(acc, collapsed);
    ProjectFirstTurn(acc, t, collapsed, l);
  }

  lemma ViewProjectGroupsStep(acc: seq<Task>, t: Task, collapsed: bool)
    ensures var l := ViewOf(acc, collapsed); ViewOf(acc + [t], collapsed).projectGroups == ProjectGroupsAfter(l, t, collapsed)
  {
    var l := ViewOf(acc, collapsed);
    ProjectGroupsTurn(acc, t, collapsed, l);
  }

  lemma ViewProjectTasksStep(acc: seq<Task>, t: Task, collapsed: bool)
    ensures var l := ViewOf(acc, collapsed); ViewOf(acc + [t], collapsed).projectTasks == ProjectTasksAfter(l, t, collapsed)
  {
    var l := ViewOf(acc, collapsed);
    ProjectTasksTurn(acc, t, collapsed, l);
  }

  lemma ViewGroupFirstStep(acc: seq<Task>, t: Task, collapsed: bool)
    ensures var l := ViewOf(acc, collapsed); ViewOf(acc + [t], collapsed).groupFirst == GroupFirstAfter(l, t, collapsed)
  {
    var l := ViewOf(acc, collapsed);
    GroupFirstTurn(acc, t, collapsed, l);
  }

  lemma ViewGroupTasksStep(acc: seq<Task>, t: Task, collapsed: bool)
    ensures var l := ViewOf(acc, collapsed); ViewOf(acc + [t], collapsed).groupTasks == GroupTasksAfter(l, t, collapsed)
  {
    var l := ViewOf(acc, collapsed);
    GroupTasksTurn(acc, t, collapsed, l);
  }

  /** The loop of `buildTaskTree` keeps its maps equal to the layout of the tasks placed so far. */
  lemma ViewStep(acc: seq<Task>, t: Task, collapsed: bool)
    ensures ViewOf(acc + [t], collapsed) == Turn(ViewOf(acc, collapsed), t, collapsed)
  {
    ViewTopOrderStep(acc, t, collapsed);
    ViewTopFirstStep(acc, t, collapsed);
    ViewTopFoldersStep(acc, t, collapsed);
    ViewNestedFirstStep(acc, t, collapsed);
    ViewTopProjectsStep(acc, t, collapsed);
    ViewNestedProjectsStep(acc, t, collapsed);
    ViewProjectFirstStep(acc, t, collapsed);
    ViewProjectGroupsStep(acc, t, collapsed);
    ViewProjectTasksStep(acc, t, collapsed);
    ViewGroupFirstStep(acc, t, collapsed);
    ViewGroupTasksStep(acc, t, collapsed);
  }

  // ---------------------------------------------------------------------------
  // What the lists hold
  // ---------------------------------------------------------------------------

  /** The nested tasks after one more task, by relative path. */
  lemma NestedKeysSnoc(prefix: seq<Task>, t: Task, p: string)
    ensures p in Keys(NestedTasks(prefix + [t]), RelativePath) <==>
      p in Keys(NestedTasks(prefix), RelativePath) || (Nests(t) && p == RelativePath(t))
    ensures p in Keys(NestedTasks(prefix + [t]), RelativePath) ==>
      First(NestedTasks(prefix + [t]), RelativePath, p) ==
        if p in Keys(NestedTasks(prefix), RelativePath) then First(NestedTasks(prefix), RelativePath, p) else t
  {
    NestedTasksSnoc(prefix, t);
    var ns := NestedTasks(prefix);
    if Nests(t) {
      KeysSnoc(ns, t, RelativePath);
      if p in Keys(ns + [t], RelativePath) {
        FirstAppend(ns, t, RelativePath, p);
      }
    } else {
      assert NestedTasks(prefix + [t]) == ns;
    }
  }

  /** What one more task does to the folder list of a workspace. */
  lemma TopFoldersEntry(prefix: seq<Task>, t: Task, w: string)
    requires w in TopFolders(prefix + [t])
    ensures w in TopFolders(prefix) || w == ScopeName(t)
    ensures TopFolders(prefix + [t])[w] ==
      (if w in TopFolders(prefix) then TopFolders(prefix)[w] else []) +
      (if w == ScopeName(t) && Nests(t) && RelativePath(t) !in Keys(NestedTasks(prefix), RelativePath) then [RelativePath(t)] else [])
  {
    TopFoldersSnoc(prefix, t);
  }

  /**
   * A nested folder is listed under the workspace of the first task whose
   * project folder has its relative path, and under no other workspace.
   */
  lemma {:induction false} TopFoldersMember(acc: seq<Task>, w: string, p: string)
    requires w in TopFolders(acc)
    ensures p in TopFolders(acc)[w] <==>
      p in Keys(NestedTasks(acc), RelativePath) && ScopeName(First(NestedTasks(acc), RelativePath, p)) == w
  {
    var prefix, t := acc[..|acc| - 1], acc[|acc| - 1];
    assert acc == prefix + [t];
    TopFoldersEntry(prefix, t, w);
    NestedKeysSnoc(prefix, t, p);
    var ns := NestedTasks(prefix);
    if w in TopFolders(prefix) {
      TopFoldersMember(prefix, w, p);
    } else if p in Keys(ns, RelativePath) {
      TopFoldersKeys(prefix);
      KeyIn(prefix, First(ns, RelativePath, p), ScopeName);
    }
  }

  /** No nested folder is listed twice under a workspace. */
  lemma {:induction false} TopFoldersNoDup(acc: seq<Task>, w: string)
    requires w in TopFolders(acc)
    ensures NoDup(TopFolders(acc)[w])
  {
    var prefix, t := acc[..|acc| - 1], acc[|acc| - 1];
    assert acc == prefix + [t];
    TopFoldersSnoc(prefix, t);
    if w in TopFolders(prefix) {
      TopFoldersNoDup(prefix, w);
      if RelativePath(t) !in Keys(NestedTasks(prefix), RelativePath) {
        TopFoldersMember(prefix, w, RelativePath(t));
      }
    }
  }

  /** What one more task does to the project list of a workspace. */
  lemma TopProjectsEntry(prefix: seq<Task>, t: Task, collapsed: bool, w: string)
    requires w in TopProjects(prefix + [t], collapsed)
    ensures w in TopProjects(prefix, collapsed) || w == ScopeName(t)
    ensures TopProjects(prefix + [t], collapsed)[w] ==
      (if w in TopProjects(prefix, collapsed) then TopProjects(prefix, collapsed)[w] else []) +
      (if w == ScopeName(t) && !Nests(t) && ProjectKey(collapsed)(t) !in Keys(prefix, ProjectKey(collapsed))
       then [ProjectKey(collapsed)(t)] else [])
  {
    TopProjectsSnoc(prefix, t, collapsed);
  }

  /** The keys after one more task, and the first task with each. */
  lemma FirstSnoc(prefix: seq<Task>, t: Task, key: Task -> string, k: string)
    ensures k in Keys(prefix + [t], key) <==> k in Keys(prefix, key) || k == key(t)
    ensures k in Keys(prefix + [t], key) ==>
      First(prefix + [t], key, k) == if k in Keys(prefix, key) then First(prefix, key, k) else t
  {
    KeysSnoc(prefix, t, key);
    if k in Keys(prefix + [t], key) {
      FirstAppend(prefix, t, key, k);
    }
  }

  /**
   * A project key is listed under a workspace exactly when the first task
   * with that key has its project folder at the workspace folder, in that
   * workspace.
   */
  lemma {:induction false} TopProjectsMember(acc: seq<Task>, collapsed: bool, w: string, k: string)
    requires w in TopProjects(acc, collapsed)
    ensures k in TopProjects(acc, collapsed)[w] <==>
      k in Keys(acc, ProjectKey(collapsed)) && FolderOf(First(acc, ProjectKey(collapsed), k)) == Top(w)
  {
    var prefix, t := acc[..|acc| - 1], acc[|acc| - 1];
    var pk := ProjectKey(collapsed);
    assert acc == prefix + [t];
    TopProjectsEntry(prefix, t, collapsed, w);
    FirstSnoc(prefix, t, pk, k);
    if w in TopProjects(prefix, collapsed) {
      TopProjectsMember(prefix, collapsed, w, k);
    } else if k in Keys(prefix, pk) {
      TopProjectsKeys(prefix, collapsed);
      KeyIn(prefix, First(prefix, pk, k), ScopeName);
    }
  }

  /** No project is listed twice under a workspace. */
  lemma {:induction false} TopProjectsNoDup(acc: seq<Task>, collapsed: bool, w: string)
    requires w in TopProjects(acc, collapsed)
    ensures NoDup(TopProjects(acc, collapsed)[w])
  {
    var prefix, t := acc[..|acc| - 1], acc[|acc| - 1];
    assert acc == prefix + [t];
    TopProjectsSnoc(prefix, t, collapsed);
    if w in TopProjects(prefix, collapsed) {
      TopProjectsNoDup(prefix, collapsed, w);
      if ProjectKey(collapsed)(t) !in Keys(prefix, ProjectKey(collapsed)) {
        TopProjectsMember(prefix, collapsed, w, ProjectKey(collapsed)(t));
      }
    }
  }

  /**
   * A project key is listed under a nested folder exactly when the first
   * task with that key has its project folder at that relative path.
   */
  lemma {:induction false} NestedProjectsMember(acc: seq<Task>, collapsed: bool, p: string, k: string)
    requires p in NestedProjects(acc, collapsed)
    ensures k in NestedProjects(acc, collapsed)[p] <==>
      k in Keys(acc, ProjectKey(collapsed)) && FolderOf(First(acc, ProjectKey(collapsed), k)) == Nested(p)
  {
    var prefix, t := acc[..|acc| - 1], acc[|acc| - 1];
    var pk := ProjectKey(collapsed);
    assert acc == prefix + [t];
    NestedProjectsSnoc(prefix, t, collapsed);
    KeysSnoc(prefix, t, pk);
    if k in Keys(acc, pk) {
      FirstAppend(prefix, t, pk, k);
    }
    if p in NestedProjects(prefix, collapsed) {
      NestedProjectsMember(prefix, collapsed, p, k);
    } else if k in Keys(prefix, pk) {
      var f := First(prefix, pk, k);
      NestedProjectsKeys(prefix, collapsed);
      if Nests(f) {
        assert f in NestedTasks(prefix);
        KeyIn(NestedTasks(prefix), f, RelativePath);
      }
    }
  }

  /** No project is listed twice under a nested folder. */
  lemma {:induction false} NestedProjectsNoDup(acc: seq<Task>, collapsed: bool, p: string)
    requires p in NestedProjects(acc, collapsed)
    ensures NoDup(NestedProjects(acc, collapsed)[p])
  {
    var prefix, t := acc[..|acc| - 1], acc[|acc| - 1];
    assert acc == prefix + [t];
    NestedProjectsSnoc(prefix, t, collapsed);
    if p in NestedProjects(prefix, collapsed) {
      NestedProjectsNoDup(prefix, collapsed, p);
      if ProjectKey(collapsed)(t) !in Keys(prefix, ProjectKey(collapsed)) {
        NestedProjectsMember(prefix, collapsed, p, ProjectKey(collapsed)(t));
      }
    }
  }

  /**
   * Unless the view is collapsed, a group key is listed under the project
   * of the first task that has it, and under no other project; a collapsed
   * view lists no groups.
   */
  lemma {:induction false} GroupsOfMember(acc: seq<Task>, collapsed: bool, k: string, g: string)
    requires k in GroupsOf(acc, collapsed)
    ensures g in GroupsOf(acc, collapsed)[k] <==>
      !collapsed && g in Keys(acc, GroupKey) && ProjectName(First(acc, GroupKey, g)) == k
  {
    var prefix, t := acc[..|acc| - 1], acc[|acc| - 1];
    assert acc == prefix + [t];
    GroupsOfSnoc(prefix, t, collapsed);
    KeysSnoc(prefix, t, GroupKey);
    if g in Keys(acc, GroupKey) {
      FirstAppend(prefix, t, GroupKey, g);
    }
    if k in GroupsOf(prefix, collapsed) {
      GroupsOfMember(prefix, collapsed, k, g);
    } else if g in Keys(prefix, GroupKey) {
      GroupsOfKeys(prefix, collapsed);
      KeyIn(prefix, First(prefix, GroupKey, g), ProjectKey(collapsed));
    }
  }

  /** No group is listed twice under a project. */
  lemma {:induction false} GroupsOfNoDup(acc: seq<Task>, collapsed: bool, k: string)
    requires k in GroupsOf(acc, collapsed)
    ensures NoDup(GroupsOf(acc, collapsed)[k])
  {
    var prefix, t := acc[..|acc| - 1], acc[|acc| - 1];
    assert acc == prefix + [t];
    GroupsOfSnoc(prefix, t, collapsed);
    if k in GroupsOf(prefix, collapsed) {
      GroupsOfNoDup(prefix, collapsed, k);
      if !collapsed && GroupKey(t) !in Keys(prefix, GroupKey) {
        GroupsOfMember(prefix, collapsed, k, GroupKey(t));
      }
    }
  }
}
