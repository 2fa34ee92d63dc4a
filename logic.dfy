/**
 * internal/core/logic.go: `CompareEvents` checks a planned event against the actual one and
 * reports each difference. The password helpers of that file are not part of this model.
 */
module Logic {
  import opened Wrappers
  import opened Core

  /** The report for one pair of optional times. */
  function TimeDifferences(planned: Option<int>, actual: Option<int>, nilDiff: Difference,
                           valueDiff: Difference): (r: seq<Difference>)
    ensures r == [] <==> planned == actual
  {
    if planned.None? != actual.None? then [nilDiff]
    else if planned.Some? && planned.value != actual.value then [valueDiff]
    else []
  }

  /** One difference per index below `k` where the two equally long entry lists disagree. */
  function EntryDifferences(planned: seq<Entry>, actual: seq<Entry>, k: nat): seq<Difference>
    requires |planned| == |actual| && k <= |planned|
  {
    if k == 0 then []
    else
      var here := if planned[k - 1] != actual[k - 1] then [EntryDiffers(k - 1)] else [];
      EntryDifferences(planned, actual, k - 1) + here
  }

  function StartDifferences(planned: Event, actual: Event): seq<Difference> {
    TimeDifferences(planned.startTime, actual.startTime, StartTimeNil,
      if planned.startTime.Some? && actual.startTime.Some? then StartTimeValue(planned.startTime.value, actual.startTime.value) else StartTimeNil)
  }

  function EndDifferences(planned: Event, actual: Event): seq<Difference> {
    TimeDifferences(planned.endTime, actual.endTime, EndTimeNil,
      if planned.endTime.Some? && actual.endTime.Some? then EndTimeValue(planned.endTime.value, actual.endTime.value) else EndTimeNil)
  }

  function FieldDifferences(planned: Event, actual: Event): seq<Difference> {
    (if planned.status != actual.status then [StatusDiffers(planned.status, actual.status)] else []) +
    (if planned.metadata != actual.metadata then [MetadataDiffers] else [])
  }

  function EntriesDifferences(planned: Event, actual: Event): seq<Difference> {
    if |planned.entries| != |actual.entries| then [EntriesCountDiffers(|planned.entries|, |actual.entries|)]
    else EntryDifferences(planned.entries, actual.entries, |planned.entries|)
  }

  /** The whole report, in the order the source builds it. */
  function Differences(planned: Event, actual: Event): seq<Difference> {
    StartDifferences(planned, actual) + EndDifferences(planned, actual) +
    FieldDifferences(planned, actual) + EntriesDifferences(planned, actual)
  }

  /** The fields `CompareEvents` looks at; category, frequency and pattern are not among them. */
  predicate SameOutcome(planned: Event, actual: Event) {
    && planned.startTime == actual.startTime && planned.endTime == actual.endTime
    && planned.status == actual.status && planned.metadata == actual.metadata
    && planned.entries == actual.entries
  }

  lemma {:induction false} EntryDifferencesEmpty(planned: seq<Entry>, actual: seq<Entry>, k: nat)
    requires |planned| == |actual| && k <= |planned|
    ensures EntryDifferences(planned, actual, k) == [] <==> planned[..k] == actual[..k]
  {
    if k > 0 {
      EntryDifferencesEmpty(planned, actual, k - 1);
      assert planned[..k] == planned[..k - 1] + [planned[k - 1]];
      assert actual[..k] == actual[..k - 1] + [actual[k - 1]];
      if planned[..k] == actual[..k] {
        assert planned[..k - 1] == planned[..k][..k - 1] && actual[..k - 1] == actual[..k][..k - 1];
        assert planned[k - 1] == planned[..k][k - 1];
      }
    }
  }

  /** The report is empty exactly when the compared fields are all equal. */
  lemma NoDifferencesIffSame(planned: Event, actual: Event)
    ensures Differences(planned, actual) == [] <==> SameOutcome(planned, actual)
  {
    if |planned.entries| == |actual.entries| {
      var n := |planned.entries|;
      EntryDifferencesEmpty(planned.entries, actual.entries, n);
      assert planned.entries[..n] == planned.entries && actual.entries[..n] == actual.entries;
    }
  }

  /** A nil time against a set one is a difference even though no value is compared. */
  lemma NilAgainstSetDiffers(planned: Event, actual: Event)
    requires planned.startTime == None && actual.startTime.Some?
    ensures Differences(planned, actual) != [] && Differences(planned, actual)[0] == StartTimeNil
  {
  }

  /** The per-index loop over two entry lists of the same length. */
  method CompareEntries(planned: seq<Entry>, actual: seq<Entry>) returns (differences: seq<Difference>)
    requires |planned| == |actual|
    ensures differences == EntryDifferences(planned, actual, |planned|)
  {
    differences := [];
    var i := 0;
    while i < |planned|
      invariant 0 <= i <= |planned|
      invariant differences == EntryDifferences(planned, actual, i)
    {
      if planned[i] != actual[i] {
        differences := differences + [EntryDiffers(i)];
      }
      i := i + 1;
    }
  }

  /**
   * Compares the planned event `plannedId` with the actual event `actualId` of the node.
   * Either missing is an error; otherwise the answer is true exactly when the report is empty,
   * and a non-empty report is returned as the error. The node is only read.
   */
  method CompareEvents(n: Node, plannedId: string, actualId: string) returns (same: bool, err: Option<Error>)
    ensures plannedId !in n.plannedEvents || actualId !in n.events ==>
      !same && err == Some(EventsNotFound(plannedId, actualId))
    ensures plannedId in n.plannedEvents && actualId in n.events ==>
      var d := Differences(n.plannedEvents[plannedId], n.events[actualId]);
      && (same <==> d == [])
      && (err == if d == [] then None else Some(DifferencesFound(d)))
  {
    if plannedId !in n.plannedEvents || actualId !in n.events {
      return false, Some(EventsNotFound(plannedId, actualId));
    }
    var planned := n.plannedEvents[plannedId];
    var actual := n.events[actualId];
    var differences := FieldReport(planned, actual);
    ghost var head := differences;

    if |planned.entries| != |actual.entries| {
      differences := differences + [EntriesCountDiffers(|planned.entries|, |actual.entries|)];
    } else {
      var perEntry := CompareEntries(planned.entries, actual.entries);
      differences := differences + perEntry;
    }
    assert differences == head + EntriesDifferences(planned, actual);
    if |differences| > 0 {
      return false, Some(DifferencesFound(differences));
    }
    return true, None;
  }

  /** The first part of `CompareEvents`' report: start time, end time, status and metadata. */
  method FieldReport(planned: Event, actual: Event) returns (differences: seq<Difference>)
    ensures differences == StartDifferences(planned, actual) + EndDifferences(planned, actual) + FieldDifferences(planned, actual)
  {
    differences := [];
    if (planned.startTime == None && actual.startTime.Some?) || (planned.startTime.Some? && actual.startTime == None) {
      differences := differences + [StartTimeNil];
    } else if planned.startTime.Some? && actual.startTime.Some? && planned.startTime.value != actual.startTime.value {
      differences := differences + [StartTimeValue(planned.startTime.value, actual.startTime.value)];
    }
    assert differences == StartDifferences(planned, actual);

    if (planned.endTime == None && actual.endTime.Some?) || (planned.endTime.Some? && actual.endTime == None) {
      differences := differences + [EndTimeNil];
    } else if planned.endTime.Some? && actual.endTime.Some? && planned.endTime.value != actual.endTime.value {
      differences := differences + [EndTimeValue(planned.endTime.value, actual.endTime.value)];
    }
    assert differences == StartDifferences(planned, actual) + EndDifferences(planned, actual);

    if planned.status != actual.status {
      differences := differences + [StatusDiffers(planned.status, actual.status)];
    }

    if planned.metadata != actual.metadata {
      differences := differences + [MetadataDiffers];
    }
  }
}
