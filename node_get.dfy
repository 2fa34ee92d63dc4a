/**
 * internal/core/node_get.go: read-only queries on a `Node` — lookups by ID through the forest,
 * event summaries and copies, time-tracking intervals and user profiles.
 */
module NodeGet {
  import opened Wrappers
  import opened Core
  import opened NodeSpec

  /** A copy of the planned events; the source's error result is always nil. */
  method GetPlannedEvents(n: Node) returns (r: Result<map<string, Event>, Error>)
    ensures r == Ok(n.plannedEvents)
  {
    var copy: map<string, Event> := map[];
    var todo := n.plannedEvents.Keys;
    while todo != {}
      invariant todo <= n.plannedEvents.Keys
      invariant copy.Keys == n.plannedEvents.Keys - todo
      invariant forall k :: k in copy ==> copy[k] == n.plannedEvents[k]
      decreases |todo|
    {
      var k :| k in todo;
      copy := copy[k := n.plannedEvents[k]];
      todo := todo - {k};
    }
    var planned := n.plannedEvents;
    assert copy.Keys == planned.Keys;
    assert forall k :: k in planned ==> copy[k] == planned[k];
    assert copy == planned;
    return Ok(copy);
  }

  /**
   * The node with ID `key` in the subtree of `n`; "forest" names `n` itself. Children are tried
   * in the map's unspecified order, so among several nodes with the ID any one may be returned.
   */
  method GetNode(n: Node, key: string) returns (r: Result<Node, Error>)
    requires n.Valid()
    ensures n.id == key || key == "forest" ==> r == Ok(n)
    ensures r.Ok? ==> r.value in n.repr && (r.value.id == key || (key == "forest" && r.value == n))
    ensures r.Ok? <==> key == "forest" || n.HasId(key)
    ensures r.Err? ==> r.error == NodeNotFound(key)
    decreases n.repr
  {
    if n.id == key {
      return Ok(n);
    }
    if key == "forest" {
      return Ok(n);
    }
    var todo := n.children.Values;
    while todo != {}
      invariant todo <= n.children.Values
      invariant forall c :: c in n.children.Values && c !in todo ==> !c.HasId(key)
      decreases |todo|
    {
      var child :| child in todo;
      var found := GetNode(child, key);
      if found.Ok? {
        return found;
      }
      todo := todo - {child};
    }
    return Err(NodeNotFound(key));
  }

  datatype EventSummary = EventSummary(
    status: EventStatus, duration: Option<int>, remainingTime: Option<int>,
    entriesCount: int, lastUpdateTime: Option<int>)

  /**
   * The summary of one event at time `now`: finished with End−Start once it has an end time,
   * else ongoing with now−Start once started, else its stored status. An end time without a
   * start time makes the source dereference nil; that case is the `NilStartTime` error here.
   */
  function Summarize(e: Event, now: int): (r: Result<EventSummary, Error>)
    ensures r.Err? <==> e.endTime.Some? && e.startTime == None
    ensures r.Ok? ==> r.value.entriesCount == |e.entries| && r.value.remainingTime == None
    ensures r.Ok? ==> r.value.lastUpdateTime == (if e.entries == [] then None else Some(e.entries[|e.entries| - 1].timestamp))
    ensures r.Ok? && e.endTime.Some? ==>
      r.value.status == EventFinished && r.value.duration == Some(e.endTime.value - e.startTime.value)
    ensures r.Ok? && e.endTime == None && e.startTime.Some? ==>
      r.value.status == EventOngoing && r.value.duration == Some(now - e.startTime.value)
    ensures r.Ok? && e.endTime == None && e.startTime == None ==>
      r.value.status == e.status && r.value.duration == None
  {
    var last := if |e.entries| > 0 then Some(e.entries[|e.entries| - 1].timestamp) else None;
    if e.endTime.Some? then
      if e.startTime == None then Err(NilStartTime)
      else Ok(EventSummary(EventFinished, Some(e.endTime.value - e.startTime.value), None, |e.entries|, last))
    else if e.startTime.Some? then
      Ok(EventSummary(EventOngoing, Some(now - e.startTime.value), None, |e.entries|, last))
    else
      Ok(EventSummary(e.status, None, None, |e.entries|, last))
  }

  method GetEventSummary(n: Node, eventId: string, now: int) returns (r: Result<EventSummary, Error>)
    ensures eventId !in n.events ==> r == Err(EventNotFound(eventId))
    ensures eventId in n.events ==> r == Summarize(n.events[eventId], now)
  {
    if eventId !in n.events {
      return Err(EventNotFound(eventId));
    }
    r := Summarize(n.events[eventId], now);
  }

  /**
   * For the events that the lifecycle operations build, the summary never fails and reports
   * the status the event already carries.
   */
  lemma SummaryAgreesWithStatus(e: Event, now: int)
    requires Consistent(e)
    ensures Summarize(e, now).Ok? && Summarize(e, now).value.status == e.status
  {
  }

  /** The entries of every event, appended in the order the map happens to be walked. */
  function Concat(events: map<string, Event>, order: seq<string>): (r: seq<Entry>)
    requires forall i :: 0 <= i < |order| ==> order[i] in events
  {
    if order == [] then [] else Concat(events, order[..|order| - 1]) + events[order[|order| - 1]].entries
  }

  lemma {:induction false} ConcatLength(events: map<string, Event>, order: seq<string>)
    requires forall i :: 0 <= i < |order| ==> order[i] in events
    ensures |Concat(events, order)| == SumLengths(events, order)
  {
    if order != [] {
      ConcatLength(events, order[..|order| - 1]);
    }
  }

  function SumLengths(events: map<string, Event>, order: seq<string>): nat
    requires forall i :: 0 <= i < |order| ==> order[i] in events
  {
    if order == [] then 0 else SumLengths(events, order[..|order| - 1]) + |events[order[|order| - 1]].entries|
  }

  /** All entries of all events: each event's entries in order, events in some order of their IDs. */
  method GetAllEventEntries(n: Node) returns (r: Result<seq<Entry>, Error>, ghost order: seq<string>)
    ensures |order| == |n.events| && (forall i :: 0 <= i < |order| ==> order[i] in n.events)
    ensures forall i, j :: 0 <= i < j < |order| ==> order[i] != order[j]
    ensures r == Ok(Concat(n.events, order))
  {
    var all: seq<Entry> := [];
    var todo := n.events.Keys;
    order := [];
    while todo != {}
      invariant todo <= n.events.Keys
      invariant forall i :: 0 <= i < |order| ==> order[i] in n.events && order[i] !in todo
      invariant forall i, j :: 0 <= i < j < |order| ==> order[i] != order[j]
      invariant |order| + |todo| == |n.events|
      invariant all == Concat(n.events, order)
      decreases |todo|
    {
      var k :| k in todo;
      ghost var before := order;
      all := all + n.events[k].entries;
      order := order + [k];
      assert order[..|order| - 1] == before;
      todo := todo - {k};
    }
    return Ok(all), order;
  }

  /** A copy of one event's entries. */
  method GetEventEntries(n: Node, eventId: string) returns (r: Result<seq<Entry>, Error>)
    ensures eventId !in n.events ==> r == Err(EventNotFound(eventId))
    ensures eventId in n.events ==> r == Ok(n.events[eventId].entries)
  {
    if eventId !in n.events {
      return Err(EventNotFound(eventId));
    }
    var entries := n.events[eventId].entries;
    return Ok(entries);
  }

  // ---------------------------------------------------------------- time tracking

  datatype Interval = Interval(startTime: int, endTime: int, duration: int)

  /** The walk's state: the pending start marker, if any, and the intervals closed so far. */
  datatype Tracking = Tracking(pending: Option<Entry>, summary: seq<Interval>)

  predicate IsStart(e: Entry, userId: string) {
    e.userId == userId && e.content == DStr(StartMarker)
  }

  predicate IsEnd(e: Entry, userId: string) {
    e.userId == userId && e.content == DStr(EndMarker)
  }

  /** One entry of the walk: a start replaces the pending one, an end closes it, anything else is skipped. */
  function Step(t: Tracking, e: Entry, userId: string): Tracking {
    if e.userId != userId then t
    else if e.content == DStr(StartMarker) then t.(pending := Some(e))
    else if e.content == DStr(EndMarker) && t.pending.Some? then
      var s := t.pending.value;
      Tracking(None, t.summary + [Interval(s.timestamp, e.timestamp, e.timestamp - s.timestamp)])
    else t
  }

  /** The state after walking `entries` left to right. */
  function Track(entries: seq<Entry>, userId: string): Tracking {
    if entries == [] then Tracking(None, [])
    else Step(Track(entries[..|entries| - 1], userId), entries[|entries| - 1], userId)
  }

  /** The intervals of `userId`, walking the node's entries once. */
  method GetTimeTrackingSummary(n: Node, userId: string) returns (summary: seq<Interval>)
    ensures summary == Track(n.entries, userId).summary
  {
    var entries := n.entries;
    var startTime: Option<Entry> := None;
    summary := [];
    var i := 0;
    while i < |entries|
      invariant 0 <= i <= |entries|
      invariant Tracking(startTime, summary) == Track(entries[..i], userId)
    {
      var entry := entries[i];
      assert entries[..i + 1][..i] == entries[..i];
      if entry.userId == userId {
        if entry.content == DStr("start_time_entry") {
          startTime := Some(entry);
        } else if entry.content == DStr("end_time_entry") && startTime.Some? {
          var duration := entry.timestamp - startTime.value.timestamp;
          summary := summary + [Interval(startTime.value.timestamp, entry.timestamp, duration)];
          startTime := None;
        }
      }
      i := i + 1;
    }
    assert entries[..i] == entries;
  }

  /** `entries[i]` is a start marker of the user and `entries[j]` the first end marker after it, with no newer start between. */
  predicate PairedAt(entries: seq<Entry>, userId: string, i: int, j: int) {
    && 0 <= i < j < |entries|
    && IsStart(entries[i], userId) && IsEnd(entries[j], userId)
    && forall m :: i < m < j ==> !IsStart(entries[m], userId) && !IsEnd(entries[m], userId)
  }

  /** `iv` is the interval of a start/end pair of the user in `entries`. */
  ghost predicate Witnessed(entries: seq<Entry>, userId: string, iv: Interval) {
    exists i, j :: PairedAt(entries, userId, i, j) &&
      iv == Interval(entries[i].timestamp, entries[j].timestamp, entries[j].timestamp - entries[i].timestamp)
  }

  /** `e` is the user's last marker in `entries`, and a start marker. */
  ghost predicate LastMarker(entries: seq<Entry>, userId: string, e: Entry) {
    exists i :: 0 <= i < |entries| && entries[i] == e && IsStart(e, userId) &&
      forall m :: i < m < |entries| ==> !IsStart(entries[m], userId) && !IsEnd(entries[m], userId)
  }

  lemma WitnessedGrow(entries: seq<Entry>, userId: string, iv: Interval)
    requires entries != [] && Witnessed(entries[..|entries| - 1], userId, iv)
    ensures Witnessed(entries, userId, iv)
  {
    var front := entries[..|entries| - 1];
    var i, j :| PairedAt(front, userId, i, j) &&
      iv == Interval(front[i].timestamp, front[j].timestamp, front[j].timestamp - front[i].timestamp);
    assert PairedAt(entries, userId, i, j);
  }

  lemma CloseInterval(entries: seq<Entry>, userId: string, s: Entry)
    requires entries != [] && IsEnd(entries[|entries| - 1], userId)
    requires LastMarker(entries[..|entries| - 1], userId, s)
    ensures var e := entries[|entries| - 1];
      Witnessed(entries, userId, Interval(s.timestamp, e.timestamp, e.timestamp - s.timestamp))
  {
    var front := entries[..|entries| - 1];
    var i :| 0 <= i < |front| && front[i] == s && IsStart(s, userId) &&
      forall m :: i < m < |front| ==> !IsStart(front[m], userId) && !IsEnd(front[m], userId);
    assert PairedAt(entries, userId, i, |entries| - 1);
  }

  lemma KeepPending(entries: seq<Entry>, userId: string, s: Entry)
    requires entries != [] && !IsStart(entries[|entries| - 1], userId) && !IsEnd(entries[|entries| - 1], userId)
    requires LastMarker(entries[..|entries| - 1], userId, s)
    ensures LastMarker(entries, userId, s)
  {
    var front := entries[..|entries| - 1];
    var i :| 0 <= i < |front| && front[i] == s && IsStart(s, userId) &&
      forall m :: i < m < |front| ==> !IsStart(front[m], userId) && !IsEnd(front[m], userId);
    assert entries[i] == s;
    forall m | i < m < |entries|
      ensures !IsStart(entries[m], userId) && !IsEnd(entries[m], userId)
    {
      if m < |front| {
        assert entries[m] == front[m];
      }
    }
  }

  /**
   * Every interval pairs an end marker of the user with the latest unmatched start marker
   * before it, and its duration is the difference of their timestamps; a pending start is the
   * user's last marker.
   */
  lemma {:induction false} TrackPairs(entries: seq<Entry>, userId: string)
    ensures forall k :: 0 <= k < |Track(entries, userId).summary| ==>
      Witnessed(entries, userId, Track(entries, userId).summary[k])
    ensures Track(entries, userId).pending.Some? ==> LastMarker(entries, userId, Track(entries, userId).pending.value)
    decreases |entries|
  {
    if entries != [] {
      var front := entries[..|entries| - 1];
      var last := entries[|entries| - 1];
      TrackPairs(front, userId);
      var t0 := Track(front, userId);
      var t := Track(entries, userId);
      assert t == Step(t0, last, userId);
      forall k | 0 <= k < |t0.summary| ensures Witnessed(entries, userId, t0.summary[k]) {
        WitnessedGrow(entries, userId, t0.summary[k]);
      }
      if IsStart(last, userId) {
        assert t.summary == t0.summary;
        assert LastMarker(entries, userId, last) by {
          assert entries[|entries| - 1] == last;
        }
      } else if IsEnd(last, userId) && t0.pending.Some? {
        CloseInterval(entries, userId, t0.pending.value);
      } else if t0.pending.Some? && !IsEnd(last, userId) {
        KeepPending(entries, userId, t0.pending.value);
      }
    }
  }

  /** The interval of the start marker at `i` and the end marker at `j`. */
  function IntervalOf(entries: seq<Entry>, i: int, j: int): Interval
    requires 0 <= i < j < |entries|
  {
    Interval(entries[i].timestamp, entries[j].timestamp, entries[j].timestamp - entries[i].timestamp)
  }

  /** The intervals of all start/end pairs of the user, in the order of their end markers. */
  ghost function PairIntervals(entries: seq<Entry>, userId: string): seq<Interval>
    decreases |entries|
  {
    if entries == [] then []
    else
      var j := |entries| - 1;
      PairIntervals(entries[..j], userId) +
        if exists i :: PairedAt(entries, userId, i, j) then
          var i :| PairedAt(entries, userId, i, j);
          [IntervalOf(entries, i, j)]
        else []
  }

  /** A start marker with no marker of the user after it is pending at the end of the walk. */
  lemma {:induction false} PendingComplete(entries: seq<Entry>, userId: string, i: int)
    requires 0 <= i < |entries| && IsStart(entries[i], userId)
    requires forall m :: i < m < |entries| ==> !IsStart(entries[m], userId) && !IsEnd(entries[m], userId)
    ensures Track(entries, userId).pending == Some(entries[i])
    decreases |entries|
  {
    var j := |entries| - 1;
    var front := entries[..j];
    if i < j {
      assert forall m :: i < m < |front| ==> front[m] == entries[m];
      PendingComplete(front, userId, i);
      assert !IsStart(entries[j], userId) && !IsEnd(entries[j], userId);
    }
  }

  /** An end marker that closes a pair closes the pending start of that pair. */
  lemma ClosePair(entries: seq<Entry>, userId: string, i: int, j: int)
    requires j == |entries| - 1 && PairedAt(entries, userId, i, j)
    ensures Track(entries, userId).summary == Track(entries[..j], userId).summary + [IntervalOf(entries, i, j)]
  {
    var front := entries[..j];
    assert forall m :: i < m < |front| ==> front[m] == entries[m];
    PendingComplete(front, userId, i);
  }

  /** An end marker that meets a pending start closes a pair. */
  lemma PendingPairs(entries: seq<Entry>, userId: string, j: int)
    requires j == |entries| - 1 >= 0 && IsEnd(entries[j], userId)
    requires Track(entries[..j], userId).pending.Some?
    ensures exists i :: PairedAt(entries, userId, i, j)
  {
    var front := entries[..j];
    TrackPairs(front, userId);
    var i :| 0 <= i < |front| && front[i] == Track(front, userId).pending.value && IsStart(front[i], userId) &&
      forall m :: i < m < |front| ==> !IsStart(front[m], userId) && !IsEnd(front[m], userId);
    assert PairedAt(entries, userId, i, j);
  }

  /** An entry that closes no pair leaves the summary as it was. */
  lemma NoPair(entries: seq<Entry>, userId: string, j: int)
    requires j == |entries| - 1 >= 0
    requires forall i :: !PairedAt(entries, userId, i, j)
    ensures Track(entries, userId).summary == Track(entries[..j], userId).summary
  {
    if IsEnd(entries[j], userId) && Track(entries[..j], userId).pending.Some? {
      PendingPairs(entries, userId, j);
    }
  }

  /**
   * The walk misses no pair and adds nothing else: its summary is exactly the intervals of the
   * user's start/end pairs, in the order of their end markers.
   */
  lemma {:induction false} TrackComplete(entries: seq<Entry>, userId: string)
    ensures Track(entries, userId).summary == PairIntervals(entries, userId)
    decreases |entries|
  {
    if entries != [] {
      var j := |entries| - 1;
      TrackComplete(entries[..j], userId);
      if exists i :: PairedAt(entries, userId, i, j) {
        forall i | PairedAt(entries, userId, i, j)
          ensures Track(entries, userId).summary == PairIntervals(entries[..j], userId) + [IntervalOf(entries, i, j)]
        {
          ClosePair(entries, userId, i, j);
        }
      } else {
        NoPair(entries, userId, j);
      }
    }
  }

  /** The user's own markers, in order. */
  function OwnEntries(entries: seq<Entry>, userId: string): (r: seq<Entry>) {
    if entries == [] then []
    else
      var last := entries[|entries| - 1];
      OwnEntries(entries[..|entries| - 1], userId) + (if last.userId == userId then [last] else [])
  }

  /** Other users' entries play no part: the summary is the one of the user's own entries. */
  lemma {:induction false} TrackIgnoresOthers(entries: seq<Entry>, userId: string)
    ensures Track(entries, userId) == Track(OwnEntries(entries, userId), userId)
    decreases |entries|
  {
    if entries != [] {
      var front := entries[..|entries| - 1];
      var last := entries[|entries| - 1];
      TrackIgnoresOthers(front, userId);
      if last.userId == userId {
        var own := OwnEntries(front, userId) + [last];
        assert own[..|own| - 1] == OwnEntries(front, userId);
      } else {
        assert OwnEntries(entries, userId) == OwnEntries(front, userId) + [];
        assert OwnEntries(front, userId) + [] == OwnEntries(front, userId);
      }
    }
  }

  function CountEnds(entries: seq<Entry>, userId: string): nat {
    if entries == [] then 0
    else CountEnds(entries[..|entries| - 1], userId) + (if IsEnd(entries[|entries| - 1], userId) then 1 else 0)
  }

  /** An end marker without a pending start adds nothing, so there are at most as many intervals as end markers. */
  lemma {:induction false} TrackBound(entries: seq<Entry>, userId: string)
    ensures |Track(entries, userId).summary| <= CountEnds(entries, userId)
    decreases |entries|
  {
    if entries != [] {
      TrackBound(entries[..|entries| - 1], userId);
    }
  }

  /** A start followed by an end of the same user adds exactly one interval, whatever came before. */
  lemma StartThenEnd(entries: seq<Entry>, userId: string, s: Entry, e: Entry)
    requires IsStart(s, userId) && IsEnd(e, userId)
    ensures Track(entries + [s, e], userId) ==
      Tracking(None, Track(entries, userId).summary + [Interval(s.timestamp, e.timestamp, e.timestamp - s.timestamp)])
  {
    var a := entries + [s, e];
    assert a[..|a| - 1] == entries + [s];
    assert (entries + [s])[..|entries|] == entries;
  }

  // ---------------------------------------------------------------- users

  /** The first user with that ID, or an error. */
  method GetUserProfile(n: Node, userId: string) returns (r: Result<User, Error>)
    ensures FirstUser(n.users, userId) == -1 ==> r == Err(UserNotFound(userId))
    ensures FirstUser(n.users, userId) >= 0 ==> r == Ok(n.users[FirstUser(n.users, userId)])
  {
    var users := n.users;
    var i := 0;
    while i < |users| && users[i].id != userId
      invariant 0 <= i <= |users|
      invariant forall k :: 0 <= k < i ==> users[k].id != userId
    {
      i := i + 1;
    }
    if i == |users| {
      return Err(UserNotFound(userId));
    }
    return Ok(users[i]);
  }
}
