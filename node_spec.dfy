/**
 * The rules behind the node operations, shared by internal/core/node_fn.go,
 * internal/core/actions.go and internal/core/node_add.go: how an event moves through
 * pending, ongoing and finished, and how a permission is assigned to a node's users.
 * The methods that update a `Node` in place are proved against these functions.
 */
module NodeSpec {
  import opened Wrappers
  import opened Core

  // ---------------------------------------------------------------- events

  /** The event that `StartEvent` stores: ongoing from `now` unless planned for later. */
  function Begun(plannedStart: Option<int>, metadata: Metadata, now: int): (e: Event)
    ensures e.metadata == metadata && e.entries == [] && e.endTime == None
    ensures e.status == (if plannedStart == None || now > plannedStart.value then EventOngoing else EventPending)
    ensures e.startTime == (if e.status == EventOngoing then Some(now) else None)
    ensures e.category == (if StringField(metadata, "category").Some? then StringField(metadata, "category").value else "")
    ensures e.frequency == (if StringField(metadata, "frequency").Some? then StringField(metadata, "frequency").value else "")
    ensures e.pattern == (if StringField(metadata, "custom_pattern").Some? then StringField(metadata, "custom_pattern").value else "")
  {
    var base := Event(None, None, [], metadata, EventPending, "", "", "");
    var e1 := if StringField(metadata, "category").Some? then base.(category := StringField(metadata, "category").value) else base;
    var e2 := if StringField(metadata, "frequency").Some? then e1.(frequency := StringField(metadata, "frequency").value) else e1;
    var e3 := if StringField(metadata, "custom_pattern").Some? then e2.(pattern := StringField(metadata, "custom_pattern").value) else e2;
    if plannedStart == None || now > plannedStart.value then e3.(startTime := Some(now), status := EventOngoing) else e3
  }

  /** The event that `PlanEvent` stores: pending, with the planned times as given. */
  function Planned(plannedStart: Option<int>, plannedEnd: Option<int>, metadata: Metadata): (e: Event)
    ensures e.status == EventPending && e.entries == []
    ensures e.startTime == plannedStart && e.endTime == plannedEnd && e.metadata == metadata
  {
    Event(plannedStart, plannedEnd, [], metadata, EventPending, "", "", "")
  }

  /** What `EndEvent` does to a started event. */
  function Ended(e: Event, now: int): (r: Event)
    ensures r.endTime == Some(now) && r.status == EventFinished
    ensures r.startTime == e.startTime && r.entries == e.entries && r.metadata == e.metadata
  {
    e.(endTime := Some(now), status := EventFinished)
  }

  /** `EndEvent`'s guards: the event must exist and must have started; a finished one may be ended again. */
  function EndResult(events: map<string, Event>, eventId: string, now: int): (r: Result<map<string, Event>, Error>)
    ensures eventId !in events ==> r == Err(EventNotFound(eventId))
    ensures eventId in events && events[eventId].startTime == None ==> r == Err(EndNotStarted)
    ensures r.Ok? <==> eventId in events && events[eventId].startTime.Some?
    ensures r.Ok? ==> r.value.Keys == events.Keys && r.value[eventId] == Ended(events[eventId], now)
    ensures r.Ok? ==> forall k :: k in events && k != eventId ==> r.value[k] == events[k]
  {
    if eventId !in events then Err(EventNotFound(eventId))
    else if events[eventId].startTime == None then Err(EndNotStarted)
    else Ok(events[eventId := Ended(events[eventId], now)])
  }

  /** `AppendToEvent`'s guards and its effect: one entry more at the end of an ongoing event. */
  function AppendResult(events: map<string, Event>, eventId: string, entry: Entry): (r: Result<map<string, Event>, Error>)
    ensures eventId !in events ==> r == Err(EventNotFound(eventId))
    ensures eventId in events && events[eventId].endTime.Some? ==> r == Err(AppendFinished)
    ensures eventId in events && events[eventId].endTime == None && events[eventId].startTime == None ==> r == Err(AppendNotStarted)
    ensures r.Ok? <==> eventId in events && events[eventId].endTime == None && events[eventId].startTime.Some?
    ensures r.Ok? ==> r.value.Keys == events.Keys
    ensures r.Ok? ==> r.value[eventId].entries == events[eventId].entries + [entry]
    ensures r.Ok? ==> r.value[eventId] == events[eventId].(entries := r.value[eventId].entries)
    ensures r.Ok? ==> forall k :: k in events && k != eventId ==> r.value[k] == events[k]
  {
    if eventId !in events then Err(EventNotFound(eventId))
    else if events[eventId].endTime.Some? then Err(AppendFinished)
    else if events[eventId].startTime == None then Err(AppendNotStarted)
    else
      var e := events[eventId];
      Ok(events[eventId := e.(entries := e.entries + [entry])])
  }

  /**
   * The shape that every event in `Node.events` keeps: finished exactly when it has an end time
   * (and then it also has a start), ongoing exactly when started and not finished, pending when neither.
   */
  predicate Consistent(e: Event) {
    && (e.endTime.Some? ==> e.startTime.Some? && e.status == EventFinished)
    && (e.endTime == None && e.startTime.Some? ==> e.status == EventOngoing)
    && (e.startTime == None ==> e.status == EventPending && e.entries == [])
  }

  predicate AllConsistent(events: map<string, Event>) {
    forall k :: k in events ==> Consistent(events[k])
  }

  lemma BegunConsistent(plannedStart: Option<int>, metadata: Metadata, now: int)
    ensures Consistent(Begun(plannedStart, metadata, now))
  {
  }

  /** Starting, ending and appending keep every stored event consistent. */
  lemma LifecyclePreservesConsistency(events: map<string, Event>, eventId: string, plannedStart: Option<int>,
                                      metadata: Metadata, now: int, entry: Entry)
    requires AllConsistent(events)
    ensures AllConsistent(events[eventId := Begun(plannedStart, metadata, now)])
    ensures EndResult(events, eventId, now).Ok? ==> AllConsistent(EndResult(events, eventId, now).value)
    ensures AppendResult(events, eventId, entry).Ok? ==> AllConsistent(AppendResult(events, eventId, entry).value)
  {
    BegunConsistent(plannedStart, metadata, now);
  }

  /** An event can be appended to only while it is ongoing, and ending one always finishes it. */
  lemma AppendOnlyWhileOngoing(events: map<string, Event>, eventId: string, entry: Entry, now: int)
    requires AllConsistent(events)
    ensures AppendResult(events, eventId, entry).Ok? <==> eventId in events && events[eventId].status == EventOngoing
    ensures EndResult(events, eventId, now).Ok? ==> EndResult(events, eventId, now).value[eventId].status == EventFinished
  {
    if eventId in events {
      var e := events[eventId];
      assert Consistent(e);
    }
  }

  // ---------------------------------------------------------------- users and permissions

  /** Index of the first user with ID `userId`, or -1. */
  function FirstUser(users: seq<User>, userId: string): (r: int)
    ensures -1 <= r < |users|
    ensures r >= 0 ==> users[r].id == userId
    ensures forall i :: 0 <= i < |users| && (r == -1 || i < r) ==> users[i].id != userId
  {
    if |users| == 0 then -1
    else if users[0].id == userId then 0
    else
      var j := FirstUser(users[1..], userId);
      if j == -1 then -1 else j + 1
  }

  /** `CheckPermission`'s answer: some user with that ID lists the permission. */
  ghost predicate HasPermission(users: seq<User>, userId: string, p: Permission) {
    exists i, j :: 0 <= i < |users| && users[i].id == userId && 0 <= j < |users[i].permissions| && users[i].permissions[j] == p
  }

  /**
   * The permissive assignment of node_fn.go and node_add.go: the first user with the ID gets `p`
   * appended (even when already held); an unknown user is appended with exactly `[p]`.
   */
  function AssignPermissive(users: seq<User>, user: User, p: Permission): (r: seq<User>)
  {
    var i := FirstUser(users, user.id);
    if i == -1 then users + [user.(permissions := [p])]
    else users[i := users[i].(permissions := users[i].permissions + [p])]
  }

  /** The strict assignment of actions.go: refuses a permission the first matching user already holds. */
  function AssignStrict(users: seq<User>, user: User, p: Permission): (r: Result<seq<User>, Error>)
    ensures r.Err? <==> FirstUser(users, user.id) >= 0 && p in users[FirstUser(users, user.id)].permissions
    ensures r.Err? ==> r.error == AlreadyHasPermission(user.username, p)
    ensures r.Ok? ==> r.value == AssignPermissive(users, user, p)
  {
    var i := FirstUser(users, user.id);
    if i >= 0 && p in users[i].permissions then Err(AlreadyHasPermission(user.username, p))
    else Ok(AssignPermissive(users, user, p))
  }

  /**
   * After a permissive assignment the user holds `p`; the user list grows only for a new ID,
   * and the new user's other fields are the ones passed in.
   */
  lemma AssignGrants(users: seq<User>, user: User, p: Permission)
    ensures HasPermission(AssignPermissive(users, user, p), user.id, p)
    ensures var i := FirstUser(users, user.id);
      |AssignPermissive(users, user, p)| == (if i == -1 then |users| + 1 else |users|)
    ensures FirstUser(users, user.id) == -1 ==>
      AssignPermissive(users, user, p)[|users|] == user.(permissions := [p])
  {
    var r := AssignPermissive(users, user, p);
    var i := FirstUser(users, user.id);
    if i == -1 {
      assert r[|users|].id == user.id && r[|users|].permissions[0] == p;
    } else {
      var ps := users[i].permissions;
      assert r[i].id == user.id && r[i].permissions[|ps|] == p;
    }
  }

  /** Users other than the first one with the ID are untouched; only permissions of that one change. */
  lemma AssignFrames(users: seq<User>, user: User, p: Permission)
    ensures var r := AssignPermissive(users, user, p);
      forall k :: 0 <= k < |users| && k != FirstUser(users, user.id) ==> r[k] == users[k]
    ensures var i := FirstUser(users, user.id);
      i >= 0 ==> AssignPermissive(users, user, p)[i] == users[i].(permissions := users[i].permissions + [p])
  {
  }

  predicate NoDuplicates(ps: seq<Permission>) {
    forall a, b :: 0 <= a < b < |ps| ==> ps[a] != ps[b]
  }

  /**
   * The strict assignment keeps every user's permission list free of duplicates,
   * which the permissive one does not.
   */
  lemma StrictKeepsNoDuplicates(users: seq<User>, user: User, p: Permission)
    requires forall k :: 0 <= k < |users| ==> NoDuplicates(users[k].permissions)
    ensures AssignStrict(users, user, p).Ok? ==>
      var r := AssignStrict(users, user, p).value;
      forall k :: 0 <= k < |r| ==> NoDuplicates(r[k].permissions)
  {
    if AssignStrict(users, user, p).Ok? {
      var r := AssignStrict(users, user, p).value;
      var i := FirstUser(users, user.id);
      forall k | 0 <= k < |r| ensures NoDuplicates(r[k].permissions) {
        if k == i {
          var ps := users[i].permissions;
          assert r[k].permissions == ps + [p];
          assert p !in ps;
          forall a, b | 0 <= a < b < |ps + [p]| ensures (ps + [p])[a] != (ps + [p])[b] {
            if b == |ps| { assert (ps + [p])[a] == ps[a]; }
          }
        }
      }
    }
  }

  /** The permissive assignment can create a duplicate: assigning a held permission twice. */
  lemma PermissiveDuplicates(u: User, p: Permission)
    requires u.permissions == [p]
    ensures !NoDuplicates(AssignPermissive([u], u, p)[0].permissions)
  {
    assert FirstUser([u], u.id) == 0;
    var ps := AssignPermissive([u], u, p)[0].permissions;
    assert ps == [p, p] && ps[0] == ps[1];
  }

  // ---------------------------------------------------------------- entries

  /** The marker entry written by `StartTimeTracking` / `StopTimeTracking`. */
  function Marker(userId: string, content: string, now: int): (e: Entry)
    ensures e.userId == userId && e.content == DStr(content) && e.timestamp == now
    ensures e.metadata == None && e.attachments == []
  {
    Entry(DStr(content), None, userId, now, [])
  }

  const StartMarker := "start_time_entry"
  const EndMarker := "end_time_entry"
}
