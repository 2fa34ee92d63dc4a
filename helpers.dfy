/**
 * internal/helpers.go: the same hash comparison and path walk as internal/api_helpers.go,
 * without the node cache. Both files define these in one Go package; each is modelled on its own.
 */
module Helpers {
  import opened Wrappers
  import opened Strings
  import opened Core
  import ApiHelpers
  import PathWalk

  /** `compareHashes`: equal length and equal bytes. */
  method CompareHashes(a: seq<Byte>, b: seq<Byte>) returns (r: bool)
    ensures r <==> a == b
  {
    r := ApiHelpers.CompareHashes(a, b);
  }

  /** `getNodeFromPath`: the root for "", else the walk along the "/"-separated child names. */
  method GetNodeFromPath(forest: Node, path: string) returns (r: Result<Node, Error>)
    requires forest.Valid()
    ensures path == "" ==> r == Ok(forest)
    ensures path != "" && r.Ok? ==> PathWalk.Reaches(forest, Split(path, "/"), r.value)
    ensures path != "" && r.Err? ==> r.error == NodeNotFound(path) && PathWalk.Blocked(forest, Split(path, "/"))
  {
    r := PathWalk.Walk(forest, path);
  }
}
