/**
 * The build tasks the task views are built from, as the extension's task
 * provider hands them over, and the helpers both views use to read them.
 */
module TaskDefinitions {

  /** `task.scope`: a workspace folder (what `isWorkspaceFolder` accepts) or any other scope. */
  datatype TaskScope = WorkspaceFolder(name: string, uri: string) | OtherScope

  /** `task.definition` of a Gradle task; an absent string field reads as "". */
  datatype TaskDefinition = TaskDefinition(
    id: string,
    script: string,
    projectFolder: string,
    workspaceFolder: string,
    buildFile: string,
    rootProject: string,
    project: string,
    group: string,
    description: string)

  /**
   * A task. `isGradleTask` is the answer of the host query of that name, and
   * `running`/`stopping` are the answers of `isTaskRunning`/`isTaskStopping`
   * at the moment the tree is built.
   */
  datatype Task = Task(
    definition: TaskDefinition,
    scope: TaskScope,
    isGradleTask: bool,
    running: bool,
    stopping: bool)

  // ---------------------------------------------------------------------------
  // Task labels
  // ---------------------------------------------------------------------------

  /** `s.lastIndexOf(c)`: the last position of `c` in `s`, or -1. */
  function LastIndexOf(s: string, c: char): (k: int)
    ensures -1 <= k < |s|
    ensures k >= 0 ==> s[k] == c
    ensures forall j :: k < j < |s| ==> s[j] != c
  {
    if s == [] then -1
    else if s[|s| - 1] == c then |s| - 1
    else LastIndexOf(s[..|s| - 1], c)
  }

  /** `script.slice(script.lastIndexOf(':') + 1)`: the task's own name without its project path. */
  function TaskName(script: string): string
  {
    script[LastIndexOf(script, ':') + 1..]
  }

  /** The task name is the part after the last ':', or the whole script when it has none. */
  lemma TaskNameIsLastSegment(script: string)
    ensures ':' !in TaskName(script)
    ensures |TaskName(script)| <= |script|
    ensures script[|script| - |TaskName(script)|..] == TaskName(script)
    ensures TaskName(script) == script || script[|script| - |TaskName(script)| - 1] == ':'
    ensures ':' !in script ==> TaskName(script) == script
  {
    var k := LastIndexOf(script, ':');
    if ':' in script {
      var j :| 0 <= j < |script| && script[j] == ':';
      assert k >= j;
    }
  }

  /** `s.split(c)`, JavaScript's: the pieces between the occurrences of `c`, never none. */
  function Split(s: string, c: char): (parts: seq<string>)
    ensures |parts| >= 1
  {
    if s == [] then [""]
    else
      var rest := Split(s[1..], c);
      if s[0] == c then [""] + rest else [[s[0]] + rest[0]] + rest[1..]
  }

  /** A string without the separator splits into itself alone; one with it into several pieces. */
  lemma {:induction false} SplitPieces(s: string, c: char)
    ensures c !in s ==> Split(s, c) == [s]
    ensures c in s ==> |Split(s, c)| >= 2
  {
    if s != [] {
      SplitPieces(s[1..], c);
      assert s == [s[0]] + s[1..];
    }
  }

  /** The segment after the last ':', computed from the front as `Split` walks the string. */
  function LastSegment(s: string): string
  {
    if s == [] then []
    else if ':' in s[1..] then LastSegment(s[1..])
    else if s[0] == ':' then s[1..]
    else s
  }

  lemma {:induction false} SplitLastIsLastSegment(s: string)
    ensures Split(s, ':')[|Split(s, ':')| - 1] == LastSegment(s)
  {
    if s != [] {
      var t := s[1..];
      SplitLastIsLastSegment(t);
      SplitPieces(t, ':');
      if s[0] != ':' && ':' !in t {
        assert [s[0]] + t == s;
      }
    }
  }

  lemma {:induction false} LastSegmentIsTaskName(s: string)
    ensures LastSegment(s) == TaskName(s)
  {
    if s != [] {
      LastSegmentIsTaskName(s[1..]);
      TaskNameCons(s);
    }
  }

  /** `script.split(':').pop()`, the older view's form, names the same segment as `TaskName`. */
  lemma SplitLastIsTaskName(s: string)
    ensures Split(s, ':')[|Split(s, ':')| - 1] == TaskName(s)
  {
    SplitLastIsLastSegment(s);
    LastSegmentIsTaskName(s);
  }

  /** How the task name of a string relates to that of its tail. */
  lemma TaskNameCons(s: string)
    requires s != []
    ensures ':' in s[1..] ==> TaskName(s) == TaskName(s[1..])
    ensures ':' !in s[1..] && s[0] == ':' ==> TaskName(s) == s[1..]
    ensures ':' !in s ==> TaskName(s) == s
  {
    var t := s[1..];
    var k, k' := LastIndexOf(s, ':'), LastIndexOf(t, ':');
    if ':' in t {
      var j :| 0 <= j < |t| && t[j] == ':';
      assert k' >= j && s[k' + 1] == ':';
      assert k == k' + 1;
      assert TaskName(s) == t[k' + 1..];
    } else if s[0] == ':' {
      assert k == 0;
    } else {
      assert k == -1;
    }
  }

  // ---------------------------------------------------------------------------
  // Keys and first occurrences
  // ---------------------------------------------------------------------------

  /** The key of every task of `ts`, in order. */
  function Keys(ts: seq<Task>, key: Task -> string): (ks: seq<string>)
    ensures |ks| == |ts|
    ensures forall j :: 0 <= j < |ts| ==> ks[j] == key(ts[j])
  {
    if ts == [] then [] else Keys(ts[..|ts| - 1], key) + [key(ts[|ts| - 1])]
  }

  /** The first task of `ts` whose key is `k`: the one whose tree item a map keyed by `k` keeps. */
  function First(ts: seq<Task>, key: Task -> string, k: string): (t: Task)
    requires k in Keys(ts, key)
    ensures t in ts && key(t) == k
  {
    if key(ts[0]) == k then ts[0]
    else
      assert k in Keys(ts[1..], key) by {
        var j :| 0 <= j < |ts| && Keys(ts, key)[j] == k;
        assert j > 0 && Keys(ts[1..], key)[j - 1] == k;
      }
      First(ts[1..], key, k)
  }

  /** Appending a task changes no first occurrence except that of a key not seen before. */
  lemma {:induction false} FirstAppend(ts: seq<Task>, t: Task, key: Task -> string, k: string)
    requires k in Keys(ts + [t], key)
    ensures k in Keys(ts, key) ==> First(ts + [t], key, k) == First(ts, key, k)
    ensures k !in Keys(ts, key) ==> First(ts + [t], key, k) == t
  {
    var s := ts + [t];
    if ts == [] {
      assert Keys(ts, key) == [];
    } else if key(ts[0]) != k {
      assert s[1..] == ts[1..] + [t];
      if k in Keys(ts, key) {
        var j :| 0 <= j < |ts| && Keys(ts, key)[j] == k;
        assert Keys(ts[1..], key)[j - 1] == k;
      } else {
        forall j | 0 <= j < |ts[1..]| ensures Keys(ts[1..], key)[j] != k {
          assert Keys(ts, key)[j + 1] == k ==> k in Keys(ts, key);
        }
      }
      FirstAppend(ts[1..], t, key, k);
    } else {
      assert Keys(ts, key)[0] == k;
    }
  }

  /** The distinct elements of `s` in order of first occurrence: the key order of a JavaScript `Map`. */
  function Dedup(s: seq<string>): (d: seq<string>)
    ensures forall x :: x in d <==> x in s
    ensures forall i, j :: 0 <= i < j < |d| ==> d[i] != d[j]
  {
    if s == [] then []
    else
      var prefix := Dedup(s[..|s| - 1]);
      if s[|s| - 1] in prefix then prefix else prefix + [s[|s| - 1]]
  }
}
