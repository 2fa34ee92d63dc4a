/** app.go: the application holds a forest and looks nodes up by path. */
module App {
  import opened Wrappers
  import opened Strings
  import opened Core
  import PathWalk

  class App {
    var forest: Node

    constructor (forest: Node)
      ensures this.forest == forest
    {
      this.forest := forest;
    }

    /**
     * `getNodeFromPath`: the root for "", else the walk along the "/"-separated child names.
     * An empty segment, as in "a//b" or "a/", has to match a child whose name is empty
     * (see `Strings.SplitTrailing`).
     */
    method GetNodeFromPath(path: string) returns (r: Result<Node, Error>)
      requires forest.Valid()
      ensures path == "" ==> r == Ok(forest)
      ensures path != "" && r.Ok? ==> PathWalk.Reaches(forest, Split(path, "/"), r.value)
      ensures path != "" && r.Err? ==> r.error == NodeNotFound(path) && PathWalk.Blocked(forest, Split(path, "/"))
    {
      r := PathWalk.Walk(forest, path);
    }
  }
}
