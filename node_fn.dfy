/**
 * internal/core/node_fn.go: the event lifecycle, permissions and time-tracking markers on a
 * `Node`, updated in place. `now` stands for `time.Now()`; the node's mutex is not modelled.
 */
module NodeFn {
  import opened Wrappers
  import opened Core
  import opened NodeSpec

  /**
   * Starts an event now, or stores it as pending when `plannedStart` is still ahead.
   * Only a leaf node takes events; an existing event with the same ID is replaced.
   */
  method StartEvent(n: Node, eventId: string, plannedStart: Option<int>, plannedEnd: Option<int>,
                    metadata: Metadata, now: int) returns (err: Outcome<Error>)
    modifies n`events
    ensures n.nodeType != LeafNode ==> err == Fail(NonLeafEvent) && n.events == old(n.events)
    ensures n.nodeType == LeafNode ==>
      err == Pass && n.events == old(n.events)[eventId := Begun(plannedStart, metadata, now)]
  {
    if n.nodeType != LeafNode {
      return Fail(NonLeafEvent);
    }
    var event := Event(None, None, [], metadata, EventPending, "", "", "");
    var category := StringField(metadata, "category");
    if category.Some? {
      event := event.(category := category.value);
    }
    var frequency := StringField(metadata, "frequency");
    if frequency.Some? {
      event := event.(frequency := frequency.value);
    }
    var pattern := StringField(metadata, "custom_pattern");
    if pattern.Some? {
      event := event.(pattern := pattern.value);
    }
    if plannedStart == None || now > plannedStart.value {
      event := event.(startTime := Some(now), status := EventOngoing);
    }
    n.events := n.events[eventId := event];
    return Pass;
  }

  /** Marks a started event finished at `now`; a finished event is ended again. */
  method EndEvent(n: Node, eventId: string, now: int) returns (err: Outcome<Error>)
    modifies n`events
    ensures var r := EndResult(old(n.events), eventId, now);
      && (r.Ok? ==> err == Pass && n.events == r.value)
      && (r.Err? ==> err == Fail(r.error) && n.events == old(n.events))
  {
    if eventId !in n.events {
      return Fail(EventNotFound(eventId));
    }
    var event := n.events[eventId];
    if event.startTime == None {
      return Fail(EndNotStarted);
    }
    event := event.(endTime := Some(now), status := EventFinished);
    n.events := n.events[eventId := event];
    return Pass;
  }

  /** Adds one entry, stamped `now`, to an event that has started and not finished. */
  method AppendToEvent(n: Node, eventId: string, content: Dyn, metadata: Metadata, userId: string,
                       now: int) returns (err: Outcome<Error>)
    modifies n`events
    ensures var r := AppendResult(old(n.events), eventId, Entry(content, metadata, userId, now, []));
      && (r.Ok? ==> err == Pass && n.events == r.value)
      && (r.Err? ==> err == Fail(r.error) && n.events == old(n.events))
  {
    if eventId !in n.events {
      return Fail(EventNotFound(eventId));
    }
    var event := n.events[eventId];
    if event.endTime.Some? {
      return Fail(AppendFinished);
    }
    if event.startTime == None {
      return Fail(AppendNotStarted);
    }
    var entry := Entry(content, metadata, userId, now, []);
    event := event.(entries := event.entries + [entry]);
    n.events := n.events[eventId := event];
    return Pass;
  }

  /** Stores a pending event with the planned times in `plannedEvents`; `events` is untouched. */
  method PlanEvent(n: Node, eventId: string, plannedStart: Option<int>, plannedEnd: Option<int>,
                   metadata: Metadata) returns (err: Outcome<Error>)
    modifies n`plannedEvents
    ensures n.nodeType != LeafNode ==> err == Fail(NonLeafPlan) && n.plannedEvents == old(n.plannedEvents)
    ensures n.nodeType == LeafNode ==>
      err == Pass && n.plannedEvents == old(n.plannedEvents)[eventId := Planned(plannedStart, plannedEnd, metadata)]
    ensures n.events == old(n.events)
  {
    if n.nodeType != LeafNode {
      return Fail(NonLeafPlan);
    }
    var event := Event(None, None, [], metadata, EventPending, "", "", "");
    event := event.(startTime := plannedStart, endTime := plannedEnd);
    n.plannedEvents := n.plannedEvents[eventId := event];
    return Pass;
  }

  /** Whether some user of the node with ID `userId` holds `permission`. */
  method CheckPermission(n: Node, userId: string, permission: Permission) returns (b: bool)
    ensures b == HasPermission(n.users, userId, permission)
  {
    var users := n.users;
    var i := 0;
    while i < |users|
      invariant 0 <= i <= |users|
      invariant forall k, j :: 0 <= k < i && users[k].id == userId && 0 <= j < |users[k].permissions| ==>
        users[k].permissions[j] != permission
    {
      if users[i].id == userId {
        var perms := users[i].permissions;
        var j := 0;
        while j < |perms|
          invariant 0 <= j <= |perms|
          invariant forall m :: 0 <= m < j ==> perms[m] != permission
        {
          if perms[j] == permission {
            return true;
          }
          j := j + 1;
        }
      }
      i := i + 1;
    }
    return false;
  }

  /**
   * Gives `user` the permission on this node: appended to the first user with the same ID
   * (duplicates allowed), or a new user with exactly that one permission. Never fails.
   */
  method AssignUser(n: Node, user: User, permission: Permission) returns (err: Outcome<Error>)
    modifies n`users
    ensures err == Pass && n.users == AssignPermissive(old(n.users), user, permission)
  {
    var found := false;
    var i := 0;
    while i < |n.users|
      invariant 0 <= i <= |n.users|
      invariant !found ==> n.users == old(n.users) && forall k :: 0 <= k < i ==> n.users[k].id != user.id
      invariant found ==> n.users == AssignPermissive(old(n.users), user, permission)
    {
      if n.users[i].id == user.id {
        found := true;
        n.users := n.users[i := n.users[i].(permissions := n.users[i].permissions + [permission])];
        break;
      }
      i := i + 1;
    }
    if !found {
      n.users := n.users + [user.(permissions := [permission])];
    }
    return Pass;
  }

  /** Appends a "start_time_entry" marker for the user and returns it. */
  method StartTimeTracking(n: Node, userId: string, now: int) returns (e: Entry)
    modifies n`entries
    ensures e == Marker(userId, StartMarker, now) && n.entries == old(n.entries) + [e]
  {
    e := Entry(DStr("start_time_entry"), None, userId, now, []);
    n.entries := n.entries + [e];
  }

  /** Appends an "end_time_entry" marker for the user and returns it. */
  method StopTimeTracking(n: Node, userId: string, now: int) returns (e: Entry)
    modifies n`entries
    ensures e == Marker(userId, EndMarker, now) && n.entries == old(n.entries) + [e]
  {
    e := Entry(DStr("end_time_entry"), None, userId, now, []);
    n.entries := n.entries + [e];
  }
}
