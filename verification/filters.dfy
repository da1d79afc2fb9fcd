/** The find documents sent to the devices and events collections, and what
    they select. A document is modelled by the data it carries; the store's
    matching of stored records against it is the predicate next to it. */
module Filters {

  import opened Types
  import Strings

  const DeviceIdField := "device_id"
  const ProjectIdField := "project_id"
  const NetworkStatusType := "networkStatus"

  /** The events find: an $in list on one id field, eventType $ne an excluded
      type, timestamp $gte the window's start and $lt its end, and the sort
      order of the cursor. */
  datatype EventQuery = EventQuery(field: string, ids: seq<string>, excludedType: string, window: TimeRange, sortByTimestampAscending: bool)

  /** The devices find: an absent list adds no clause to the document. */
  datatype DeviceQuery = DeviceQuery(projectIds: Option<seq<string>>, deviceIds: Option<seq<string>>)

  /** A comma-separated id list as the store receives it. */
  function SplitIds(csv: string): seq<string>
  {
    Strings.Split(csv, ',')
  }

  /** The id an event carries under a field name of the events collection. */
  function FieldOf(e: Event, field: string): Option<string>
  {
    if field == DeviceIdField then Some(e.deviceId)
    else if field == ProjectIdField then Some(e.projectId)
    else None
  }

  /** A stored event satisfies the events find. */
  predicate EventMatches(q: EventQuery, e: Event)
  {
    && FieldOf(e, q.field).Some?
    && FieldOf(e, q.field).value in q.ids
    && e.eventType != q.excludedType
    && q.window.from <= e.timestamp < q.window.to
  }

  /** A stored device satisfies the devices find. */
  predicate DeviceMatches(q: DeviceQuery, d: Device)
  {
    && (q.projectIds.Some? ==> d.projectId in q.projectIds.value)
    && (q.deviceIds.Some? ==> d.id in q.deviceIds.value)
  }

  /** The events find built from a filter and a window: it keeps the events
      whose device id (for the "devices" dimension) or project id (for any
      other dimension) is one of the comma-separated values, that are not
      network-status events, and whose timestamp lies in [from, to); the
      cursor is sorted by timestamp, oldest first. */
  function BuildEventQuery(filter: Filter, window: TimeRange): (q: EventQuery)
    ensures q.sortByTimestampAscending
    ensures forall e :: EventMatches(q, e) <==>
      && (if filter.entity == "devices" then e.deviceId else e.projectId) in SplitIds(filter.value)
      && e.eventType != NetworkStatusType
      && window.from <= e.timestamp < window.to
  {
    var field := if filter.entity == "devices" then DeviceIdField else ProjectIdField;
    EventQuery(field, SplitIds(filter.value), NetworkStatusType, window, true)
  }

  /** The devices find built from two optional id lists: a list that is
      present restricts the result to its ids, a list that is absent does not
      restrict. A present but empty list is the list [""], not "all". */
  function BuildDeviceQuery(projectIdsCsv: Option<string>, deviceIdsCsv: Option<string>): (q: DeviceQuery)
    ensures forall d :: DeviceMatches(q, d) <==>
      && (projectIdsCsv.Some? ==> d.projectId in SplitIds(projectIdsCsv.value))
      && (deviceIdsCsv.Some? ==> d.id in SplitIds(deviceIdsCsv.value))
    ensures deviceIdsCsv == Some("") ==> forall d :: DeviceMatches(q, d) ==> d.id == ""
  {
    DeviceQuery(
      if projectIdsCsv.Some? then Some(SplitIds(projectIdsCsv.value)) else None,
      if deviceIdsCsv.Some? then Some(SplitIds(deviceIdsCsv.value)) else None)
  }

  /** The stored events a find selects, in stored order. */
  function Select(docs: seq<Event>, q: EventQuery): (r: seq<Event>)
    ensures forall i :: 0 <= i < |r| ==> r[i] in docs && EventMatches(q, r[i])
    ensures forall i :: 0 <= i < |docs| && EventMatches(q, docs[i]) ==> docs[i] in r
    decreases |docs|
  {
    if |docs| == 0 then []
    else
      var rest := Select(docs[1..], q);
      assert docs == [docs[0]] + docs[1..];
      if EventMatches(q, docs[0]) then [docs[0]] + rest else rest
  }

  /** A find selects every matching event as often as it is stored, and no
      other event. */
  lemma {:induction false} SelectCounts(docs: seq<Event>, q: EventQuery)
    ensures forall e :: multiset(Select(docs, q))[e] == if EventMatches(q, e) then multiset(docs)[e] else 0
    decreases |docs|
  {
    if |docs| > 0 {
      SelectCounts(docs[1..], q);
      assert docs == [docs[0]] + docs[1..];
      assert multiset(docs) == multiset{docs[0]} + multiset(docs[1..]);
      var rest := Select(docs[1..], q);
      if EventMatches(q, docs[0]) {
        assert Select(docs, q) == [docs[0]] + rest;
        assert multiset([docs[0]] + rest) == multiset{docs[0]} + multiset(rest);
      } else {
        assert Select(docs, q) == rest;
      }
    }
  }

  /** Selection keeps the stored order: what a find selects from stored
      events followed by more stored events is the selection from the first
      part followed by the selection from the second. */
  lemma {:induction false} SelectConcat(a: seq<Event>, b: seq<Event>, q: EventQuery)
    ensures Select(a + b, q) == Select(a, q) + Select(b, q)
    decreases |a|
  {
    if |a| > 0 {
      var ab := a + b;
      assert ab[0] == a[0] && ab[1..] == a[1..] + b;
      SelectConcat(a[1..], b, q);
      var head := if EventMatches(q, a[0]) then [a[0]] else [];
      assert Select(ab, q) == head + Select(ab[1..], q);
      assert Select(a, q) == head + Select(a[1..], q);
    } else {
      assert a + b == b;
    }
  }

  function InWindow(q: EventQuery, from: Instant, to: Instant): EventQuery
  {
    q.(window := TimeRange(from, to))
  }

  /** Two adjacent windows [t0, t1) and [t1, t2) together select exactly what
      [t0, t2) selects, each event once: an event stamped t1 falls in the
      second window only. */
  lemma {:induction false} AdjacentWindows(docs: seq<Event>, q: EventQuery, t0: Instant, t1: Instant, t2: Instant)
    requires t0 <= t1 <= t2
    ensures multiset(Select(docs, InWindow(q, t0, t1))) + multiset(Select(docs, InWindow(q, t1, t2)))
         == multiset(Select(docs, InWindow(q, t0, t2)))
    ensures forall e :: e in Select(docs, InWindow(q, t0, t1)) ==> e !in Select(docs, InWindow(q, t1, t2))
    decreases |docs|
  {
    if |docs| > 0 {
      AdjacentWindows(docs[1..], q, t0, t1, t2);
    }
  }
}
