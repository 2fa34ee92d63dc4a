/**
 * internal/core/actions.go: the same lifecycle as node_fn.go, with the strict `AssignUser`
 * that refuses a permission the user already holds. The lifecycle and time-tracking methods
 * of this file have the same bodies as those of node_fn.go and delegate to them.
 */
module Actions {
  import opened Wrappers
  import opened Core
  import opened NodeSpec
  import NodeFn

  method StartEvent(n: Node, eventId: string, plannedStart: Option<int>, plannedEnd: Option<int>,
                    metadata: Metadata, now: int) returns (err: Outcome<Error>)
    modifies n`events
    ensures n.nodeType != LeafNode ==> err == Fail(NonLeafEvent) && n.events == old(n.events)
    ensures n.nodeType == LeafNode ==>
      err == Pass && n.events == old(n.events)[eventId := Begun(plannedStart, metadata, now)]
  {
    err := NodeFn.StartEvent(n, eventId, plannedStart, plannedEnd, metadata, now);
  }

  method EndEvent(n: Node, eventId: string, now: int) returns (err: Outcome<Error>)
    modifies n`events
    ensures var r := EndResult(old(n.events), eventId, now);
      && (r.Ok? ==> err == Pass && n.events == r.value)
      && (r.Err? ==> err == Fail(r.error) && n.events == old(n.events))
  {
    err := NodeFn.EndEvent(n, eventId, now);
  }

  method AppendToEvent(n: Node, eventId: string, content: Dyn, metadata: Metadata, userId: string,
                       now: int) returns (err: Outcome<Error>)
    modifies n`events
    ensures var r := AppendResult(old(n.events), eventId, Entry(content, metadata, userId, now, []));
      && (r.Ok? ==> err == Pass && n.events == r.value)
      && (r.Err? ==> err == Fail(r.error) && n.events == old(n.events))
  {
    err := NodeFn.AppendToEvent(n, eventId, content, metadata, userId, now);
  }

  method PlanEvent(n: Node, eventId: string, plannedStart: Option<int>, plannedEnd: Option<int>,
                   metadata: Metadata) returns (err: Outcome<Error>)
    modifies n`plannedEvents
    ensures n.nodeType != LeafNode ==> err == Fail(NonLeafPlan) && n.plannedEvents == old(n.plannedEvents)
    ensures n.nodeType == LeafNode ==>
      err == Pass && n.plannedEvents == old(n.plannedEvents)[eventId := Planned(plannedStart, plannedEnd, metadata)]
    ensures n.events == old(n.events)
  {
    err := NodeFn.PlanEvent(n, eventId, plannedStart, plannedEnd, metadata);
  }

  method CheckPermission(n: Node, userId: string, permission: Permission) returns (b: bool)
    ensures b == HasPermission(n.users, userId, permission)
  {
    b := NodeFn.CheckPermission(n, userId, permission);
  }

  /**
   * Looks for the first user with the same ID: if it already holds the permission the call
   * fails and nothing changes, otherwise the permission is appended. An unknown user is added
   * with exactly that one permission.
   */
  method AssignUser(n: Node, user: User, permission: Permission) returns (err: Outcome<Error>)
    modifies n`users
    ensures var r := AssignStrict(old(n.users), user, permission);
      && (r.Ok? ==> err == Pass && n.users == r.value)
      && (r.Err? ==> err == Fail(r.error) && n.users == old(n.users))
  {
    var i := 0;
    while i < |n.users|
      invariant 0 <= i <= |n.users| && n.users == old(n.users)
      invariant forall k :: 0 <= k < i ==> n.users[k].id != user.id
    {
      var existing := n.users[i];
      if existing.id == user.id {
        var j := 0;
        while j < |existing.permissions|
          invariant 0 <= j <= |existing.permissions|
          invariant forall m :: 0 <= m < j ==> existing.permissions[m] != permission
        {
          if existing.permissions[j] == permission {
            return Fail(AlreadyHasPermission(user.username, permission));
          }
          j := j + 1;
        }
        n.users := n.users[i := n.users[i].(permissions := n.users[i].permissions + [permission])];
        return Pass;
      }
      i := i + 1;
    }
    n.users := n.users + [user.(permissions := [permission])];
    return Pass;
  }

  method StartTimeTracking(n: Node, userId: string, now: int) returns (e: Entry)
    modifies n`entries
    ensures e == Marker(userId, StartMarker, now) && n.entries == old(n.entries) + [e]
  {
    e := NodeFn.StartTimeTracking(n, userId, now);
  }

  method StopTimeTracking(n: Node, userId: string, now: int) returns (e: Entry)
    modifies n`entries
    ensures e == Marker(userId, EndMarker, now) && n.entries == old(n.entries) + [e]
  {
    e := NodeFn.StopTimeTracking(n, userId, now);
  }
}
