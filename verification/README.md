# vscode-gradle task and dependency trees, modelled in Dafny

This project models the tree views of the vscode-gradle extension and the server handler that feeds one of them:

- **The older task view** (`src/gradleView.ts`).
  - `buildTaskTree` turns the fetched Gradle tasks into a tree. The tree has workspace folder items, nested project folder items, project items, group items (in the expanded view) and task items.
  - The provider keeps that tree until an event throws it away.
  - The provider answers `getChildren` and `getParent` from the items.
- **The newer task view** (`GradleTasksTreeDataProvider.ts`).
  - `buildItemsTreeFromTasks` fills four module-level maps: task items, root project items, project items and group items.
  - `getChildren` of a project item builds a "Tasks" folder and one "Dependencies" folder per matching dependency node.
- **The dependency items** (`DependencyItem.ts` and `SubFolderItem.ts`).
  - A dependency node becomes a tree of items, sorted by label.
  - A dependency met again, when it has children, becomes a " (*)" reference that reveals the first item shown for it.
- **The server side** (`GetDependenciesHandler.java`).
  - It turns the parsed `gradle dependencies` report into the protobuf `DependencyNode` tree the views read.
  - Level 0 is the project, level 1 the source sets and level 2 the report lines.

Each part is specified in two ways:

- A pure function of the tasks seen so far describes what the maps and items must hold. `LayoutOf` does this for the newer view, `ViewOf` for the older view, `Convert` for dependency items and `ConvertNode` for the handler.
- The loops that change objects are methods, each proved against that function:
  - an item's fields;
  - the maps;
  - the children sorted in place by the `tasks` and `groups` getters.

Lemmas about the functions then state what a reader of the tree sees:

- which item lists which;
- what `getParent` answers;
- that lists are sorted and free of duplicates;
- which task's item is kept under a reused id.

The modules are:

| module | models |
|---|---|
| `TreeItems` | the item classes |
| `Collation` | the label order and sorting |
| `TaskDefinitions` | task definitions and the task-name split |
| `TaskTreeSpec`, `TasksTreeProvider`, `TasksTreeDataProvider`, `TasksTreeFacts` | the newer view |
| `GradleViewSpec`, `GradleView`, `GradleViewProvider`, `GradleViewFacts` | the older view |
| `DependencyItems`, `SubFolderItems` | the dependency items |
| `Proto` and `GetDependenciesHandler` | the server handler |

Where the model takes something from outside the code:

- The root project store, `path.basename` and the task provider's loaded tasks are parameters of the newer provider.
- The fetched tasks are a parameter of the older provider's `Refresh`.
- The dependency reply of the server is a parameter of `GetChildren`.

## Model

All source paths are relative to the repository root.

| member | source | states |
|---|---|---|
| TreeItems.GetTreeItemState | src/gradleView.ts:96-104 | the state is "runningTask" exactly when the task runs, "stoppingTask" exactly when it is stopping and not running, "task" exactly when neither |
| TreeItems.GradleTaskTreeItem.Tooltip | src/gradleView.ts:128 | the tooltip is either the description or the label, the description whenever it is set, and empty only when both are |
| TreeItems.GradleTaskTreeItem.ContextValue | src/gradleView.ts:131 | the context value is one of the three states: "runningTask" exactly when the task runs, "stoppingTask" exactly when it is stopping and not running, idle otherwise |
| TreeItems.TreeItemWithTasksOrGroups.CollapsibleState | src/gradleView.ts:49-58 | a project item is expanded and a group item collapsed (the group constructor at src/gradleView.ts:81-94); neither is non-collapsible |
| TreeItems.TreeItemWithTasksOrGroups.AddTask | src/gradleView.ts:60-62 | the task item is appended to the tasks; the groups are unchanged |
| TreeItems.TreeItemWithTasksOrGroups.AddGroup | src/gradleView.ts:68-70 | the group item is appended to the groups; the tasks are unchanged |
| TreeItems.TreeItemWithTasksOrGroups.Tasks | src/gradleView.ts:64-66 | the getter sorts the task list in place by label: the stored list and the answer are sorted, a permutation of the old list, and equal to `SortBy` of it; the groups are unchanged |
| TreeItems.TreeItemWithTasksOrGroups.Groups | src/gradleView.ts:72-74 | the same for the group list; the tasks are unchanged |
| TreeItems.WorkspaceTreeItem.AddProject | src/gradleView.ts:34-36 | the project item is appended to the folder's projects; its nested folders and parent are unchanged |
| TreeItems.WorkspaceTreeItem.AddProjectFolder | src/gradleView.ts:38-40 | the folder item is appended to the nested folders; the projects and parent are unchanged |
| TreeItems.RootProjectTreeItem.AddProject | extension/src/views/gradleTasks/GradleTasksTreeDataProvider.ts:194 | the project item is appended to the root project item's projects |
| TreeItems.DependencyItem.SetChildren | extension/src/views/gradleTasks/DependencyItem.ts:15-21 | the children become exactly the list given; the reveal target is unchanged |
| TreeItems.SubFolderItem.SetChildren | extension/src/views/gradleTasks/SubFolderItem.ts:17-23 | the children become exactly the list given |
| TreeItems.ShownIsView | extension/src/views/gradleTasks/DependencyItem.ts:15-21 | for an item whose whole subtree is valid, what the objects show when followed through `getChildren`, at every depth, is the item's view |
| Collation.LabelLeqReflexive | src/gradleView.ts:15-20 | the label order is reflexive |
| Collation.LabelLeqTotal | src/gradleView.ts:15-20 | the label order is total |
| Collation.LabelLeqTransitive | src/gradleView.ts:15-20 | the label order is transitive |
| Collation.LabelLeqAntisymmetric | src/gradleView.ts:15-20 | the label order is antisymmetric |
| Collation.Insert | src/gradleView.ts:65 | inserting into a sorted list gives a sorted list holding the old elements and the new one |
| Collation.SortBy | src/gradleView.ts:65 | `Array.prototype.sort` with the label comparator: the result is sorted by label and a permutation of its input |
| Collation.SortByMembers | src/gradleView.ts:65 | every element of the sorted list is in the input |
| Collation.SortBySorted | src/gradleView.ts:65 | an already sorted list is left as it is |
| Collation.SortByIdempotent | src/gradleView.ts:64-66 | reading the getter twice gives the same list as reading it once |
| Collation.SortByNoDup | src/gradleView.ts:65 | sorting a list without duplicates gives a list without duplicates |
| TaskDefinitions.TaskNameIsLastSegment | extension/src/views/gradleTasks/GradleTasksTreeDataProvider.ts:198-200 | the task name taken after the last ':' holds no ':'; it is a suffix of the script, preceded by ':' unless it is the whole script; a script without ':' is its own task name |
| TaskDefinitions.SplitLastIsTaskName | src/gradleView.ts:360 | `script.split(':').pop()` is the same name that `slice(lastIndexOf(':') + 1)` takes |
| TaskDefinitions.FirstAppend | extension/src/views/gradleTasks/GradleTasksTreeDataProvider.ts:187-196 | the first task with a key stays the first when tasks are appended; a new key's first task is the appended one |
| TaskTreeSpec.RootProjectsMember | extension/src/views/gradleTasks/GradleTasksTreeDataProvider.ts:187-196 | a build file is listed under a root project folder exactly when the first task with that build file is in that folder |
| TaskTreeSpec.RootProjectsNoDup | extension/src/views/gradleTasks/GradleTasksTreeDataProvider.ts:187-196 | no project is listed twice under a root project |
| TaskTreeSpec.ProjectGroupsMember | extension/src/views/gradleTasks/GradleTasksTreeDataProvider.ts:203-216 | a group key is listed under a build file exactly when the view is expanded and the first task with that group key has that build file |
| TaskTreeSpec.ProjectGroupsNoDup | extension/src/views/gradleTasks/GradleTasksTreeDataProvider.ts:203-216 | no group is listed twice under a project |
| TaskTreeSpec.CollapsedProjectTasks | extension/src/views/gradleTasks/GradleTasksTreeDataProvider.ts:201-230 | in a collapsed view a task is appended to its project's task list |
| TaskTreeSpec.ExpandedProjectTasks | extension/src/views/gradleTasks/GradleTasksTreeDataProvider.ts:201-230 | in an expanded view a project's task list stays empty |
| TaskTreeSpec.LayoutStep | extension/src/views/gradleTasks/GradleTasksTreeDataProvider.ts:166-231 | one turn of the loop on an accepted task takes the layout of the tasks before it to the layout of the tasks including it |
| TasksTreeProvider.EnsureRoot | extension/src/views/gradleTasks/GradleTasksTreeDataProvider.ts:173-185 | the root project item of the task's folder is found, or made with the folder's basename and the store's project URI; the root order gains the folder if it is new, and only that entry is new |
| TasksTreeProvider.EnsureProject | extension/src/views/gradleTasks/GradleTasksTreeDataProvider.ts:187-196 | the project item of the task's build file is found, or made under the root item and appended to the root item's projects |
| TasksTreeProvider.EnsureGroup | extension/src/views/gradleTasks/GradleTasksTreeDataProvider.ts:203-216 | in an expanded view the group item of `group + project` is found, or made under the project item and appended to its groups |
| TasksTreeProvider.AddTaskItem | extension/src/views/gradleTasks/GradleTasksTreeDataProvider.ts:218-230 | the task item, named after the last ':'-segment of the script, with the description (or that name) as description, is stored under the task id and appended to its parent's tasks |
| TasksTreeProvider.PlaceRoot | extension/src/views/gradleTasks/GradleTasksTreeDataProvider.ts:169-185 | the maps hold the layout of the turn's root step; only the task's own root entry can be new |
| TasksTreeProvider.PlaceTask | extension/src/views/gradleTasks/GradleTasksTreeDataProvider.ts:166-231 | one turn of the loop on an accepted task: the maps go from the layout `l` to `Step(l, t)`, and only the task's own root, project and group keys are new, each with a fresh item |
| TasksTreeProvider.AcceptedSnoc | extension/src/views/gradleTasks/GradleTasksTreeDataProvider.ts:168-172 | the tasks accepted among the first `i + 1` are those among the first `i` and then the next one if it is accepted (scoped to a workspace folder, a Gradle task, its folder in the root project store); any other task is skipped |
| TasksTreeProvider.LayoutAfterAccepted | extension/src/views/gradleTasks/GradleTasksTreeDataProvider.ts:166-232 | after the loop's first `i` turns the maps hold the layout of the tasks accepted among the first `i` |
| TasksTreeProvider.EmptyRep | extension/src/views/gradleTasks/GradleTasksTreeDataProvider.ts:35-40 | empty maps hold the layout of no tasks |
| TasksTreeDataProvider.TreeItemMaps.Cleared | extension/src/views/gradleTasks/GradleTasksTreeDataProvider.ts:35-40 | every map is empty |
| TasksTreeDataProvider.TreeItemMaps.Filled | extension/src/views/gradleTasks/GradleTasksTreeDataProvider.ts:166-232 | the maps filled by the loop hold its layout, and the root order lists exactly the root map's keys |
| TasksTreeDataProvider.ClearedHolds | extension/src/views/gradleTasks/GradleTasksTreeDataProvider.ts:35-40 | cleared maps hold the layout of no tasks |
| TasksTreeDataProvider.Refill | extension/src/views/gradleTasks/GradleTasksTreeDataProvider.ts:166-232 | maps that held the layout of the tasks `prev` end up holding the layout of `prev` followed by the accepted tasks |
| TasksTreeDataProvider.GradleTasksTreeDataProvider.constructor | extension/src/views/gradleTasks/GradleTasksTreeDataProvider.ts:51-64 | `collapsed` is the saved value, `false` when nothing was saved; no dependency nodes are cached and the maps are empty |
| TasksTreeDataProvider.GradleTasksTreeDataProvider.SetCollapsed | extension/src/views/gradleTasks/GradleTasksTreeDataProvider.ts:66-75 | only the flag changes |
| TasksTreeDataProvider.GradleTasksTreeDataProvider.ResetCachedTreeItems | extension/src/views/gradleTasks/GradleTasksTreeDataProvider.ts:35-40 | every map is empty; the flag and the cached dependency nodes are unchanged |
| TasksTreeDataProvider.GradleTasksTreeDataProvider.BuildItemsTreeFromTasks | extension/src/views/gradleTasks/GradleTasksTreeDataProvider.ts:161-238 | the maps hold the layout of the earlier tasks followed by the accepted new ones; the answer is the projects of the root project item when there is exactly one, otherwise every root project item in the order made |
| TasksTreeDataProvider.GradleTasksTreeDataProvider.BuildTreeItems | extension/src/views/gradleTasks/GradleTasksTreeDataProvider.ts:77-85 | the maps are reset and then hold the layout of the accepted loaded tasks; no loaded task gives the single "No tasks found" item, otherwise the answer of `buildItemsTreeFromTasks` |
| TasksTreeDataProvider.GradleTasksTreeDataProvider.ProjectChildren | extension/src/views/gradleTasks/GradleTasksTreeDataProvider.ts:115-141 | a fresh collapsed "Tasks" folder under the project lists its groups and then its tasks, both sorted in place; the dependency nodes are asked for once and cached; no reply gives the "Tasks" folder alone; otherwise the rest of the answer is exactly one "Dependencies" folder per node named after the project that has children, in node order |
| TasksTreeDataProvider.GradleTasksTreeDataProvider.GetChildren | extension/src/views/gradleTasks/GradleTasksTreeDataProvider.ts:109-158 | no element gives `buildTreeItems`; a root project item gives its projects; a project item gives the answer `ProjectChildren` states; a group item gives its tasks sorted in place; a dependency or folder item gives its children or nothing; any other item gives nothing |
| TasksTreeDataProvider.DependencyFolderItems | extension/src/views/gradleTasks/GradleTasksTreeDataProvider.ts:131-138 | the loop over the dependency nodes gives, in order, one fresh folder per node named after the project whose conversion is not none, each showing `DependenciesFolder` of that node |
| TasksTreeFacts.RootOrder | extension/src/views/gradleTasks/GradleTasksTreeDataProvider.ts:173-185 | the root project items are made one per project folder, in the order the folders first occur |
| TasksTreeFacts.RootEntry | extension/src/views/gradleTasks/GradleTasksTreeDataProvider.ts:177-180 | a root project item is labelled with the basename of its folder and lists as many projects as the layout gives it |
| TasksTreeFacts.RootListsProjects | extension/src/views/gradleTasks/GradleTasksTreeDataProvider.ts:95-107 | a root project item lists exactly the project items whose first task is in its folder, and `getParent` of each of them is that root item |
| TasksTreeFacts.ProjectListsGroups | extension/src/views/gradleTasks/GradleTasksTreeDataProvider.ts:95-107 | a collapsed view lists no groups; otherwise a project item lists exactly the group items whose first task has its build file, and `getParent` of each is that project item |
| TasksTreeFacts.ListsTasksParent | extension/src/views/gradleTasks/GradleTasksTreeDataProvider.ts:95-107 | `getParent` of a task item is the item that lists it |
| TasksTreeFacts.ProjectTasks | extension/src/views/gradleTasks/GradleTasksTreeDataProvider.ts:201-230 | a project item lists one item per accepted task with its build file, in order, in a collapsed view, and none in an expanded view; `getParent` of each is the project item |
| TasksTreeFacts.GroupTasks | extension/src/views/gradleTasks/GradleTasksTreeDataProvider.ts:203-230 | a group item lists no groups and one item per accepted task with its group key, in order; `getParent` of each is the group item |
| TasksTreeFacts.TaskItemOfId | extension/src/views/gradleTasks/GradleTasksTreeDataProvider.ts:229 | the task item map has an entry for exactly the ids of the accepted tasks, and for a reused id it holds the item of the last task with that id |
| TasksTreeFacts.TopLevelRoots | extension/src/views/gradleTasks/GradleTasksTreeDataProvider.ts:234-237 | with other than one root project item, the answer lists each of them, in order, labelled by its folder's basename |
| TasksTreeFacts.TopLevelProjects | extension/src/views/gradleTasks/GradleTasksTreeDataProvider.ts:234-237 | with exactly one root project item, the answer is its project items, each of whose parent is that root item |
| TasksTreeFacts.TasksFolderParents | extension/src/views/gradleTasks/GradleTasksTreeDataProvider.ts:95-107 | `getParent` of each child of a "Tasks" folder is the project item the folder belongs to |
| TasksTreeFacts.FolderParents | extension/src/views/gradleTasks/GradleTasksTreeDataProvider.ts:95-107 | `getParent` of a "Dependencies" folder is the project item, and that of each of its children is the folder |
| TasksTreeFacts.DependencyFoldersSound | extension/src/views/gradleTasks/GradleTasksTreeDataProvider.ts:131-138 | every folder shown comes from a node named after the project |
| TasksTreeFacts.DependencyFoldersComplete | extension/src/views/gradleTasks/GradleTasksTreeDataProvider.ts:131-138 | every node named after the project that has children gives a folder |
| DependencyItems.ConvertCases | extension/src/views/gradleTasks/DependencyItem.ts:24-69 | none exactly for a configuration without children; a label already recorded, with children, gives a non-collapsible " (*)" reference that reveals the recorded item; otherwise an item named by the label, collapsed exactly when the node has children, with its children sorted by label |
| DependencyItems.SeenLeafIsPlain | extension/src/views/gradleTasks/DependencyItem.ts:38-49 | a dependency met again without children is a plain leaf, not a reference |
| DependencyItems.ConvertExtends | extension/src/views/gradleTasks/DependencyItem.ts:64-66 | the map of recorded items only grows, and every new key is the label of a dependency inside the node |
| DependencyItems.ConvertConsistent | extension/src/views/gradleTasks/DependencyItem.ts:38-66 | every recorded item sits under its own label and is no reference; every reference made is named by the label of the item it reveals plus " (*)", has no children set, and reveals an item that is itself no reference |
| DependencyItems.ConvertReveals | extension/src/views/gradleTasks/DependencyItem.ts:38-47 | every reference in the converted tree reveals an item recorded in the map |
| DependencyItems.ConvertChildrenBound | extension/src/views/gradleTasks/DependencyItem.ts:50-57 | an item has at most as many children as its node |
| DependencyItems.DependencyItemMap.Set | extension/src/views/gradleTasks/DependencyItem.ts:64-66 | the entry for the label becomes the item, and the recorded views change the same way |
| DependencyItems.DependencyItemMap.Clear | extension/src/views/gradleTasks/SubFolderItem.ts:36 | the map is empty |
| DependencyItems.SortedViews | extension/src/views/gradleTasks/DependencyItem.ts:58-60 | sorting items by label and then reading their views gives the views sorted by label |
| DependencyItems.ConvertDependencyNodeToDependencyItem | extension/src/views/gradleTasks/DependencyItem.ts:24-69 | none exactly when `Convert` gives none; otherwise a fresh item under `parent` whose whole object subtree shows `Convert`'s view at every depth; the map ends up recording what `Convert` records, and earlier entries are kept |
| SubFolderItems.ConfigurationsSound | extension/src/views/gradleTasks/SubFolderItem.ts:35-44 | every item of the folder converts a configuration that is not "default", with the map cleared first |
| SubFolderItems.ConfigurationsComplete | extension/src/views/gradleTasks/SubFolderItem.ts:35-44 | every configuration that is not "default" and converts to an item is in the folder |
| SubFolderItems.ConfigurationItem | extension/src/views/gradleTasks/SubFolderItem.ts:36-40 | since the map is cleared before each configuration, a converted configuration is named by its label, is no reference, and reveals only items inside that configuration |
| SubFolderItems.FolderShape | extension/src/views/gradleTasks/SubFolderItem.ts:26-50 | there is no folder exactly when the node has no children; the folder's items are sorted by label and a permutation of the converted configurations |
| SubFolderItems.OnlyDefault | extension/src/views/gradleTasks/SubFolderItem.ts:29-39 | a node whose only configuration is "default" gets an empty folder, not none |
| SubFolderItems.ConvertDependencyNodeToSubFolderItem | extension/src/views/gradleTasks/SubFolderItem.ts:26-50 | none exactly when `DependenciesFolder` gives none; otherwise a fresh collapsed "Dependencies" folder under `parent` whose children are fresh dependency items under it showing `DependenciesFolder`, in order |
| GetDependenciesHandler.ContainsAt | gradle-server/src/main/java/com/github/badsyntax/gradle/handlers/GetDependenciesHandler.java:164 | `String.contains` holds exactly when the pattern occurs at some index |
| GetDependenciesHandler.GetDependencyNode | gradle-server/src/main/java/com/github/badsyntax/gradle/handlers/GetDependenciesHandler.java:162-183 | the intended behaviour (see Findings): the loop computes `ConvertNode`, which drops a nested "(n)" line instead of adding a null |
| GetDependenciesHandler.ConvertNodeResolved | gradle-server/src/main/java/com/github/badsyntax/gradle/handlers/GetDependenciesHandler.java:162-183 | intended behaviour: a line gives none exactly when "(n)" occurs in it; otherwise a level-2 node named by the text, with at most one child per nested line and no "(n)" line anywhere below it |
| GetDependenciesHandler.ConvertNodesOnePerLine | gradle-server/src/main/java/com/github/badsyntax/gradle/handlers/GetDependenciesHandler.java:145-151 | lines with no "(n)" anywhere give exactly one node each, in order |
| GetDependenciesHandler.AsWrittenAgrees | gradle-server/src/main/java/com/github/badsyntax/gradle/handlers/GetDependenciesHandler.java:162-183 | with no "(n)" line below the top, the code as written and the intended conversion give the same result |
| GetDependenciesHandler.NestedMarkerThrows | gradle-server/src/main/java/com/github/badsyntax/gradle/handlers/GetDependenciesHandler.java:172-174 | as written, a line with one "(n)" line below it throws; the intended conversion drops that line |
| GetDependenciesHandler.GetSourceSetNodes | gradle-server/src/main/java/com/github/badsyntax/gradle/handlers/GetDependenciesHandler.java:138-160 | intended behaviour: the loops compute `SourceSetNodes`, one level-1 node per source set that is left with children, in order |
| GetDependenciesHandler.SourceSetNodesShape | gradle-server/src/main/java/com/github/badsyntax/gradle/handlers/GetDependenciesHandler.java:138-160 | intended behaviour: every source-set node has level 1, a source set's name and at least one child, each child a resolved level-2 tree |
| GetDependenciesHandler.GetProjectNode | gradle-server/src/main/java/com/github/badsyntax/gradle/handlers/GetDependenciesHandler.java:123-136 | intended behaviour: null exactly when the report has no project; otherwise a level-0 node named after the project whose children are the source-set nodes of the first project only |
| GradleViewSpec.SegmentsOfPath | src/gradleView.ts:311-314 | the path segments of "/" joined with plain names are those names |
| GradleViewSpec.TrailingSeparator | src/gradleView.ts:311-314 | a trailing "/" does not change a path's segments |
| GradleViewSpec.RelativeToItself | src/gradleView.ts:311-314 | a path relative to itself is "" |
| GradleViewSpec.RelativeInside | src/gradleView.ts:311-314 | a folder below `from` is given by the segments below it, joined with "/" |
| GradleViewSpec.RelativeSibling | src/gradleView.ts:311-314 | a sibling folder is reached by "../" and its name |
| GradleViewSpec.RelativeTrailingExample | src/gradleView.ts:311-314 | `path.relative("/w/", "/w/sub")` is "sub" |
| GradleViewSpec.RelativeSiblingExample | src/gradleView.ts:311-314 | `path.relative("/w/a", "/w/b")` is "../b" |
| GradleViewSpec.ItemLabelIsTaskName | src/gradleView.ts:344-361 | a collapsed view labels a task item with the whole script; an expanded one with the last ':'-segment, which holds no ':' |
| GradleViewSpec.ViewStep | src/gradleView.ts:299-373 | one turn of the loop on a placed task takes the layout of the tasks before it to that of the tasks including it |
| GradleViewSpec.TopFoldersMember | src/gradleView.ts:310-328 | a nested folder is listed under exactly one workspace folder item: that of the first task whose project folder has its relative path |
| GradleViewSpec.TopFoldersNoDup | src/gradleView.ts:315-326 | no nested folder is listed twice |
| GradleViewSpec.TopProjectsMember | src/gradleView.ts:330-342 | a project key is listed under a workspace folder item exactly when the first task with that key has its project folder at that workspace folder |
| GradleViewSpec.TopProjectsNoDup | src/gradleView.ts:330-342 | no project is listed twice under a workspace folder item |
| GradleViewSpec.NestedProjectsMember | src/gradleView.ts:330-342 | a project key is listed under a nested folder item exactly when the first task with that key has its project folder at that relative path |
| GradleViewSpec.NestedProjectsNoDup | src/gradleView.ts:330-342 | no project is listed twice under a nested folder item |
| GradleViewSpec.GroupsOfMember | src/gradleView.ts:347-361 | a group is listed under a project exactly when the view is expanded and the first task with that `group + project` key has that project |
| GradleViewSpec.GroupsOfNoDup | src/gradleView.ts:347-361 | no group is listed twice under a project |
| GradleView.FillMaps | src/gradleView.ts:293-373 | the loop leaves its four maps holding the layout `ViewOf` of the placed tasks |
| GradleView.TopLevel | src/gradleView.ts:374-380 | exactly one workspace folder gives its nested folders and then its projects, otherwise every workspace folder item in first-occurrence order |
| GradleView.BuildTaskTree | src/gradleView.ts:292-381 | the maps hold the layout of the placed tasks, with one workspace folder item per scope in first-occurrence order; exactly one workspace gives its nested folders and then its projects, otherwise every workspace folder item in order |
| GradleViewFacts.WorkspaceFolderItems | src/gradleView.ts:300-308 | there is one workspace folder item per scope name, in first-occurrence order, named by the scope, located at the scope URI of the first task with it, and with no parent |
| GradleViewFacts.NestedFolderItems | src/gradleView.ts:310-328 | there is one nested folder item per relative path; its parent is the workspace of the first task with that path, which lists it and no other workspace does |
| GradleViewFacts.ProjectItemParents | src/gradleView.ts:330-342 | there is one project item per project key, made under the folder of the first task with that key and located at that task's build file |
| GradleViewFacts.ProjectItemInWorkspace | src/gradleView.ts:330-342 | a workspace folder item lists a project item exactly when that project's first task has its project folder at the workspace folder |
| GradleViewFacts.ProjectItemInNested | src/gradleView.ts:330-342 | a nested folder item lists a project item exactly when that project's first task has its project folder at that relative path |
| GradleViewFacts.GroupItemParents | src/gradleView.ts:347-361 | group items exist only in an expanded view, one per `group + project` key, named by the group, and made under the folder item rather than the project item |
| GradleViewFacts.GroupItemListed | src/gradleView.ts:347-361 | a project item lists a group item exactly when that group's first task belongs to that project |
| GradleViewFacts.TaskItemsListed | src/gradleView.ts:363-371 | every placed task has an item: under its project in a collapsed view, under its group in an expanded view |
| GradleViewFacts.ProjectTaskItems | src/gradleView.ts:344-371 | project items list tasks only in a collapsed view, each labelled by its whole script and with the project item as parent |
| GradleViewFacts.GroupTaskItems | src/gradleView.ts:347-371 | a group item's tasks are labelled by the last ':'-segment of the script, which holds no ':', and have the group item as parent |
| GradleViewFacts.TopLevelWorkspaces | src/gradleView.ts:374-380 | with other than one workspace the answer is every workspace folder item in first-occurrence order, each labelled by its scope and without a parent |
| GradleViewFacts.TopLevelSingleWorkspace | src/gradleView.ts:374-380 | with exactly one workspace the answer is its folders and projects, each with that workspace as parent, and not the workspace item itself |
| GradleViewFacts.WorkspaceFolderChildren | src/gradleView.ts:270-272 | every nested folder a workspace folder item lists has that item as parent |
| GradleViewFacts.WorkspaceProjectChildren | src/gradleView.ts:270-272 | every project a workspace folder item lists has that item as parent |
| GradleViewProvider.GetParent | src/gradleView.ts:243-260 | only folder, project, group and task items have a parent, and a task item always has one, a project or group item |
| GradleViewProvider.GradleTasksTreeDataProvider.constructor | src/gradleView.ts:174-186 | `collapsed` is the value given; no tasks and no tree yet |
| GradleViewProvider.GradleTasksTreeDataProvider.SetCollapsed | src/gradleView.ts:188-197 | the flag changes and the tree is thrown away (`render`); the tasks are kept |
| GradleViewProvider.GradleTasksTreeDataProvider.OnTaskStatusChange | src/gradleView.ts:199-202 | the tree is thrown away; the tasks and flag are kept |
| GradleViewProvider.GradleTasksTreeDataProvider.Refresh | src/gradleView.ts:229-232 | the tasks become the fetched ones and the tree is thrown away |
| GradleViewProvider.GradleTasksTreeDataProvider.Render | src/gradleView.ts:234-237 | the tree is thrown away; the tasks and flag are kept |
| GradleViewProvider.GradleTasksTreeDataProvider.EnsureTaskTree | src/gradleView.ts:263-269 | a kept tree stays; otherwise no tasks give the single "No tasks" item, and some give what `buildTaskTree` states |
| GradleViewProvider.GradleTasksTreeDataProvider.GetChildren | src/gradleView.ts:262-289 | a dropped tree is rebuilt, whether or not an element is given: "No tasks" without tasks, otherwise the tree `buildTaskTree` builds; a folder item gives its nested folders and then its projects; a project item its groups and then its tasks, each sorted in place; a group item its tasks, sorted in place; no element gives the tree's top level; any other item gives nothing |
| GradleViewProvider.ElementChildren | src/gradleView.ts:270-288 | a folder item gives its nested folders and then its projects; a project item its groups and then its tasks, each list sorted in place by label; a group item its tasks, sorted in place, with its groups unchanged; any other item gives nothing |

## Left out

- Host glue is not modelled because it happens outside the model:
  - event emitters and `onDidChangeTreeData`;
  - `getTreeItem`;
  - the `workspaceState` writes and `setContext` commands in `setCollapsed`;
  - icons, commands and localised titles;
  - `taskTreeItem.setContext()`;
  - the extension context.
- `runTask` and `runTaskWithArgs` of the older view are left out. They only hand a task to the editor's task runner or prompt for arguments.
- The older view's `fetchTasks`, the newer view's `loadTasks`, the root project store, `path.basename` and the server's dependency reply are parameters. The gRPC call behind `getGradleDependencies` and the `projectRoots[0]` it is given are left out.
- An empty `getNodeList()` after a reply is the same as a reply with no nodes in the model, because an empty JavaScript array is truthy, so both are cached.
- The Java handler's `run` is left out. It runs the Gradle build, parses the report with `GradleParser` and sends the gRPC reply, which are I/O and code outside the core. The parsed report is modelled as `ReportNode`, `SourceSet`, `Subproject` and `GradleDepsDescriptor`. Their maps are ordered lists, in the order a `LinkedHashMap` iterates.
- Concurrency is left out. The `async` getters are modelled as running to completion one at a time.
- `NoTasksTreeItem` and `NoGradleTasksTreeItem` are modelled only as the one element `NoTasksElem`.
- Collation.LabelLeq: the label order used by `SortBy` and `Insert` (`localeCompare` in the source) is modelled as code-point order. "B" sorts before "a" here, whereas `localeCompare` puts "a" first. Only the reflexive, total, transitive and antisymmetric lemmas are used by the proofs. Any locale collation with those properties would give the same sortedness and permutation facts, but not the same concrete order.
- GradleViewSpec.Relative: `path.relative` is modelled for POSIX absolute paths only:
  - "", "." and ".." segments are normalised and trailing "/" is ignored;
  - there are no Windows separators or drive letters and no case folding;
  - relative inputs are not resolved against the process's working directory.
- GradleViewProvider.GradleTasksTreeDataProvider.constructor: the `collapsed = true` default argument (src/gradleView.ts:176) is not modelled. Dafny has no default arguments, so the caller always passes the flag.
- GradleViewProvider.GradleTasksTreeDataProvider.GetChildren: the answer for a given item is computed before a dropped tree is rebuilt, whereas the source rebuilds first (src/gradleView.ts:263-269). The contract's facts about the given item's sorted lists are proved to hold after the rebuild, because the rebuild may change only the provider and items it creates. That the reordered method and the source's order end in the same state is not proved.
- The newer view's item classes `GradleTaskTreeItem`, `RootProjectTreeItem`, `ProjectTreeItem`, `GroupTreeItem`, `NoGradleTasksTreeItem` and `TreeItemWithTasksOrGroups` are imported from the package index (GradleTasksTreeDataProvider.ts:3-10), and their source is not part of this model. Their behaviour is assumed to match the classes of src/gradleView.ts:22-140: the `tasks` and `groups` getters sort in place, and `addProject` appends.
- The newer provider's `refresh` (GradleTasksTreeDataProvider.ts:87-89) only fires the change event, so it has no state to model.
- TasksTreeDataProvider.GetParent: `element.parentTreeItem || null` is modelled as the stored parent. The model has no item whose parent is unset. The facts about it are the TasksTreeFacts lemmas above.

## Findings

| source | as written | input that shows it | evidently intended | confidence | as-written member | corrected member |
|---|---|---|---|---|---|---|
| gradle-server/src/main/java/com/github/badsyntax/gradle/handlers/GetDependenciesHandler.java:172-174 | The nested lines' results are added to the child list without the null check that the source-set loop makes (java:146-149). A nested line containing "(n)" adds `null`. Protobuf's `addAllChildren` then throws, and `run` only logs the exception (java:116-117), so no reply is sent. | `ReportNode("a", [ReportNode("b (n)", [])])`: one dependency line with one unresolved line below it | the unresolved nested line is skipped, as at source-set level, giving `Build("a", 2, [])` | not executed; the throw rests on protobuf-java's null check, which is not part of this model | GetDependenciesHandler.NestedMarkerThrows (on GetDependenciesHandler.ConvertNodeAsWritten) | GetDependenciesHandler.ConvertNodeResolved (on GetDependenciesHandler.ConvertNode, computed by GetDependenciesHandler.GetDependencyNode) |
