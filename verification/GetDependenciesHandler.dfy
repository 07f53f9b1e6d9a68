/**
 * The Gradle server's conversion of a parsed `gradle dependencies` report into
 * `DependencyNode` messages: the project at level 0, its source sets
 * (configurations) at level 1 and the dependencies under them at level 2.
 * Running the build and parsing its output are not modelled: the parser's
 * result is the input here.
 */
module GetDependenciesHandler {
  import opened Wrappers
  import opened Proto

  /** A line of the parsed report with the lines nested under it; a null child list reads as empty. */
  datatype ReportNode = ReportNode(text: string, children: seq<ReportNode>)

  /** One source set of a project section: its key and its top-level report lines. */
  datatype SourceSet = SourceSet(name: string, nodes: seq<ReportNode>)

  /** A project section of the report: its source sets in the parser's map iteration order. */
  datatype Subproject = Subproject(sourceSets: seq<SourceSet>)

  /** The parsed report: the values of its project map, in iteration order. */
  datatype GradleDepsDescriptor = GradleDepsDescriptor(projects: seq<Subproject>)

  /** The suffix Gradle prints after a dependency that was not resolved. */
  const NotResolvedMarker := "(n)"

  /** `s.contains(pat)`. */
  predicate Contains(s: string, pat: string)
  {
    if |s| < |pat| then false
    else s[..|pat|] == pat || Contains(s[1..], pat)
  }

  /** `pat` occurs in `s` at position `i`. */
  ghost predicate OccursAt(s: string, pat: string, i: int)
  {
    0 <= i && i + |pat| <= |s| && s[i..i + |pat|] == pat
  }

  /** `Contains` holds exactly when `pat` occurs in `s` at some position. */
  lemma {:induction false} ContainsAt(s: string, pat: string)
    ensures Contains(s, pat) <==> exists i :: OccursAt(s, pat, i)
  {
    if |s| >= |pat| && s != [] {
      ContainsAt(s[1..], pat);
      if s[..|pat|] == pat {
        assert OccursAt(s, pat, 0);
      }
      if Contains(s[1..], pat) {
        var i :| OccursAt(s[1..], pat, i);
        assert s[i + 1..i + 1 + |pat|] == s[1..][i..i + |pat|];
        assert OccursAt(s, pat, i + 1);
      }
      if i :| OccursAt(s, pat, i) {
        if i > 0 {
          assert s[1..][i - 1..i - 1 + |pat|] == s[i..i + |pat|];
          assert OccursAt(s[1..], pat, i - 1);
        } else {
          assert s[..|pat|] == s[i..i + |pat|];
        }
      }
    } else if |s| >= |pat| {
      assert OccursAt(s, pat, 0);
    } else {
      if i :| OccursAt(s, pat, i) {
        assert false;
      }
    }
  }

  // ---------------------------------------------------------------------------
  // Level 2: one report line and the lines under it
  // ---------------------------------------------------------------------------

  /**
   * The message for one report line: none for a line marked "(n)", otherwise a
   * level-2 node named by the line's text whose children are the messages of
   * the nested lines, marked nested lines left out as at source-set level.
   */
  function ConvertNode(n: ReportNode): Option<DependencyNode>
    decreases n
  {
    if Contains(n.text, NotResolvedMarker) then None
    else if n.children == [] then Some(Build(n.text, 2, []))
    else Some(Build(n.text, 2, ConvertNodes(n.children)))
  }

  /** The messages of `nodes` in order, lines that convert to none left out. */
  function ConvertNodes(nodes: seq<ReportNode>): seq<DependencyNode>
    decreases nodes
  {
    if nodes == [] then []
    else
      var r := ConvertNode(nodes[|nodes| - 1]);
      ConvertNodes(nodes[..|nodes| - 1]) + (if r.Some? then [r.value] else [])
  }

  /** `getDependencyNode(Node)`, with the loop over the nested lines. */
  method GetDependencyNode(node: ReportNode) returns (r: Option<DependencyNode>)
    ensures r == ConvertNode(node)
    decreases node
  {
    var text := node.text;
    if Contains(text, NotResolvedMarker) {
      return None;
    }
    if |node.children| == 0 {
      return Some(Build(text, 2, []));
    }
    var children: seq<DependencyNode> := [];
    var i := 0;
    while i < |node.children|
      invariant 0 <= i <= |node.children|
      invariant children == ConvertNodes(node.children[..i])
    {
      var child := GetDependencyNode(node.children[i]);
      assert node.children[..i + 1][..i] == node.children[..i];
      if child.Some? {
        children := children + [child.value];
      }
      i := i + 1;
    }
    assert node.children[..i] == node.children;
    return Some(Build(text, 2, children));
  }

  /** A level-2 message tree in which no node is named by a line marked "(n)". */
  ghost predicate Resolved(d: DependencyNode)
  {
    && d.level == 2
    && !Contains(d.name, NotResolvedMarker)
    && forall c :: c in d.children ==> Resolved(c)
  }

  /**
   * A line is dropped exactly when "(n)" occurs in its text; otherwise its
   * message is named by the text, has level 2, at most one child per nested
   * line, and no "(n)" line anywhere below it.
   */
  lemma {:induction false} ConvertNodeResolved(n: ReportNode)
    ensures ConvertNode(n).None? <==> exists i :: OccursAt(n.text, NotResolvedMarker, i)
    ensures ConvertNode(n).Some? ==>
      var d := ConvertNode(n).value;
      d.name == n.text && d.level == 2 && |d.children| <= |n.children| && Resolved(d)
    decreases n, 1
  {
    ContainsAt(n.text, NotResolvedMarker);
    if !Contains(n.text, NotResolvedMarker) {
      ConvertNodesResolved(n.children);
    }
  }

  /** The messages of a list of lines: no more of them than lines, each one resolved. */
  lemma {:induction false} ConvertNodesResolved(nodes: seq<ReportNode>)
    ensures |ConvertNodes(nodes)| <= |nodes|
    ensures forall d :: d in ConvertNodes(nodes) ==> Resolved(d)
    decreases nodes, 0
  {
    if nodes != [] {
      ConvertNodesResolved(nodes[..|nodes| - 1]);
      ConvertNodeResolved(nodes[|nodes| - 1]);
    }
  }

  /** When no line of `nodes` is marked, there is exactly one message per line, in order. */
  lemma {:induction false} ConvertNodesOnePerLine(nodes: seq<ReportNode>)
    requires forall k :: 0 <= k < |nodes| ==> !Contains(nodes[k].text, NotResolvedMarker)
    ensures |ConvertNodes(nodes)| == |nodes|
    ensures forall k :: 0 <= k < |nodes| ==> ConvertNodes(nodes)[k] == ConvertNode(nodes[k]).value
  {
    if nodes != [] {
      ConvertNodesOnePerLine(nodes[..|nodes| - 1]);
    }
  }

  // ---------------------------------------------------------------------------
  // The code as written: a nested "(n)" line
  // ---------------------------------------------------------------------------

  /** How a conversion as written ends: a message, null, or a NullPointerException. */
  datatype Outcome = Built(node: DependencyNode) | Null | NullPointerThrown

  /**
   * `getDependencyNode(Node)` exactly as written: the nested results are added
   * to the list without the null check that the source-set loop has, and the
   * protobuf builder's `addAllChildren` throws on a null element.
   */
  function ConvertNodeAsWritten(n: ReportNode): Outcome
    decreases n
  {
    if Contains(n.text, NotResolvedMarker) then Null
    else if n.children == [] then Built(Build(n.text, 2, []))
    else
      match ConvertNodesAsWritten(n.children)
      case Some(children) => Built(Build(n.text, 2, children))
      case None => NullPointerThrown
  }

  /** The list the loop builds as written; none once it holds a null or a nested call threw. */
  function ConvertNodesAsWritten(nodes: seq<ReportNode>): Option<seq<DependencyNode>>
    decreases nodes
  {
    if nodes == [] then Some([])
    else
      match ConvertNodesAsWritten(nodes[..|nodes| - 1])
      case None => None
      case Some(prefix) =>
        match ConvertNodeAsWritten(nodes[|nodes| - 1])
        case Built(d) => Some(prefix + [d])
        case _ => None
  }

  /** No line strictly below `n` is marked "(n)". */
  ghost predicate NoNestedMarker(n: ReportNode)
  {
    forall c :: c in n.children ==> !Contains(c.text, NotResolvedMarker) && NoNestedMarker(c)
  }

  /** Without a marked line below the top, the code as written and the intended conversion agree. */
  lemma {:induction false} AsWrittenAgrees(n: ReportNode)
    requires NoNestedMarker(n)
    ensures ConvertNodeAsWritten(n) == if Contains(n.text, NotResolvedMarker) then Null else Built(ConvertNode(n).value)
    decreases n, 1
  {
    if !Contains(n.text, NotResolvedMarker) && n.children != [] {
      AsWrittenAgreesOnLines(n.children);
    }
  }

  lemma {:induction false} AsWrittenAgreesOnLines(nodes: seq<ReportNode>)
    requires forall c :: c in nodes ==> !Contains(c.text, NotResolvedMarker) && NoNestedMarker(c)
    ensures ConvertNodesAsWritten(nodes) == Some(ConvertNodes(nodes))
    decreases nodes, 0
  {
    if nodes != [] {
      AsWrittenAgreesOnLines(nodes[..|nodes| - 1]);
      AsWrittenAgrees(nodes[|nodes| - 1]);
    }
  }

  /** A dependency with one unresolved dependency below it: the code as written throws, the intended conversion drops that line. */
  lemma NestedMarkerThrows()
    ensures var n := ReportNode("a", [ReportNode("b (n)", [])]);
      ConvertNodeAsWritten(n) == NullPointerThrown && ConvertNode(n) == Some(Build("a", 2, []))
  {
    var m := ReportNode("b (n)", []);
    assert OccursAt(m.text, NotResolvedMarker, 2);
    ContainsAt(m.text, NotResolvedMarker);
    assert ConvertNode(m) == None;
    assert ConvertNodeAsWritten(m) == Null;
    assert [m][..0] == [];
    assert ConvertNodesAsWritten([m]) == None;
    assert ConvertNodes([m]) == [];
  }

  // ---------------------------------------------------------------------------
  // Level 1: the source sets of a project
  // ---------------------------------------------------------------------------

  /** The level-1 messages of a project's source sets: one per source set left with children, in order. */
  function SourceSetNodes(sets: seq<SourceSet>): seq<DependencyNode>
  {
    if sets == [] then []
    else
      var s := sets[|sets| - 1];
      var children := ConvertNodes(s.nodes);
      SourceSetNodes(sets[..|sets| - 1]) + (if children == [] then [] else [Build(s.name, 1, children)])
  }

  /** `getDependencyNode(Subproject)`: the nested loops over source sets and their lines. */
  method GetSourceSetNodes(project: Subproject) returns (result: seq<DependencyNode>)
    ensures result == SourceSetNodes(project.sourceSets)
  {
    var sets := project.sourceSets;
    result := [];
    var i := 0;
    while i < |sets|
      invariant 0 <= i <= |sets|
      invariant result == SourceSetNodes(sets[..i])
    {
      var name := sets[i].name;
      var nodes := sets[i].nodes;
      var children: seq<DependencyNode> := [];
      var j := 0;
      while j < |nodes|
        invariant 0 <= j <= |nodes|
        invariant children == ConvertNodes(nodes[..j])
      {
        var childNode := GetDependencyNode(nodes[j]);
        assert nodes[..j + 1][..j] == nodes[..j];
        if childNode.Some? {
          children := children + [childNode.value];
        }
        j := j + 1;
      }
      assert nodes[..j] == nodes;
      assert sets[..i + 1][..i] == sets[..i];
      if |children| != 0 {
        result := result + [Build(name, 1, children)];
      }
      i := i + 1;
    }
    assert sets[..i] == sets;
  }

  /**
   * Every source-set message has level 1, is named by the key of a source set,
   * and has at least one child, each a resolved level-2 tree; a source set
   * whose lines all convert to none contributes nothing.
   */
  lemma {:induction false} SourceSetNodesShape(sets: seq<SourceSet>)
    ensures |SourceSetNodes(sets)| <= |sets|
    ensures forall d :: d in SourceSetNodes(sets) ==>
      && d.level == 1
      && (exists s :: s in sets && d.name == s.name)
      && d.children != []
      && forall c :: c in d.children ==> Resolved(c)
  {
    if sets != [] {
      var s := sets[|sets| - 1];
      SourceSetNodesShape(sets[..|sets| - 1]);
      ConvertNodesResolved(s.nodes);
    }
  }

  // ---------------------------------------------------------------------------
  // Level 0: the project
  // ---------------------------------------------------------------------------

  /**
   * `getDependencyNode(GradleDepsDescriptor, String)`: the loop returns on its
   * first project, so the result is built from the first project only, and it
   * is null when the report has no project.
   */
  method GetProjectNode(descriptor: GradleDepsDescriptor, projectName: string) returns (r: Option<DependencyNode>)
    ensures r.None? <==> descriptor.projects == []
    ensures r.Some? ==>
      && r.value.name == projectName
      && r.value.level == 0
      && r.value.children == SourceSetNodes(descriptor.projects[0].sourceSets)
  {
    var projects := descriptor.projects;
    // the source's for-each returns from its first iteration
    if |projects| != 0 {
      var subNodes := GetSourceSetNodes(projects[0]);
      return Some(Build(projectName, 0, subNodes));
    }
    return None;
  }
}
