/**
 * The `DependencyNode` message of the server protocol, shared by the Gradle
 * server (which builds it) and the extension (which turns it into tree items).
 */
module Proto {

  /** One node of a dependency graph. Fields a builder leaves unset read as "" and 0. */
  datatype DependencyNode = DependencyNode(
    name: string,
    level: int,
    kind: string,      // the message's `type`: "project", "configuration" or "dependency"
    group: string,
    id: string,
    version: string,
    children: seq<DependencyNode>)

  /** `DependencyNode.newBuilder().setName(name).setLevel(level).addAllChildren(children).build()`. */
  function Build(name: string, level: int, children: seq<DependencyNode>): DependencyNode
  {
    DependencyNode(name, level, "", "", "", "", children)
  }
}
