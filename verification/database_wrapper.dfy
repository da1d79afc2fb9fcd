/** The document-store gateway: the connection's open flag, the not-connected
    guard on every query, the projects, devices and events lookups, and the
    assembly of the nested project/device/event view. The store itself is a
    parameter: for each find it answers with a cursor or an error. */
module DatabaseWrapper {

  import opened Types
  import opened Filters
  import opened Grouping
  import Sequences

  const NotConnectedMessage := "not connected to any database"

  /** A cursor: each stored document decodes to a record or fails to. */
  type Cursor<T> = seq<Result<T>>

  /** The store's answers: the unfiltered projects find, and the devices and
      events finds as functions of the document sent. */
  datatype Store = Store(
    projects: Result<Cursor<Project>>,
    devices: DeviceQuery -> Result<Cursor<Device>>,
    events: EventQuery -> Result<Cursor<Event>>)

  /** A handle is connected when it exists and is open. */
  predicate IsConnected(db: Option<Database>)
  {
    db.Some? && db.value.open
  }

  /** The handle and the error after Close. */
  datatype Closed = Closed(db: Option<Database>, error: Option<string>)

  /** Close, given what the driver's disconnect answers (an error message or
      none). Closing a handle that is not connected does nothing and succeeds;
      a successful disconnect clears the open flag; a failed one leaves the
      handle as it was and returns the driver's error. */
  function Close(db: Option<Database>, disconnectError: Option<string>): (r: Closed)
    ensures !IsConnected(db) ==> r == Closed(db, None)
    ensures IsConnected(db) && disconnectError.None? ==> r == Closed(Some(db.value.(open := false)), None)
    ensures IsConnected(db) && disconnectError.Some? ==> r == Closed(db, disconnectError)
    ensures !IsConnected(r.db) <==> r.error.None?
  {
    if !IsConnected(db) then Closed(db, None)
    else if disconnectError.Some? then Closed(db, disconnectError)
    else Closed(Some(db.value.(open := false)), None)
  }

  /** Reading a cursor to its end: the decoded records in cursor order, or the
      first decoding error, which abandons the whole read. */
  function DecodeAll<T>(c: Cursor<T>): (r: Result<seq<T>>)
    ensures r.Ok? <==> forall i :: 0 <= i < |c| ==> c[i].Ok?
    ensures r.Ok? ==> |r.value| == |c| && forall i :: 0 <= i < |c| ==> r.value[i] == c[i].value
    ensures r.Err? ==> exists i :: 0 <= i < |c| && c[i].Err? && c[i].error == r.error && forall j :: 0 <= j < i ==> c[j].Ok?
    decreases |c|
  {
    if |c| == 0 then Ok([])
    else if c[0].Err? then Err(c[0].error)
    else
      match DecodeAll(c[1..])
      case Err(e) =>
        assert forall j :: 0 < j < |c| ==> c[j] == c[1..][j - 1];
        Err(e)
      case Ok(vs) => Ok([c[0].value] + vs)
  }

  /** A lookup: refused when not connected, otherwise the store's error or
      the decoded cursor. */
  function Fetch<T>(db: Option<Database>, answer: Result<Cursor<T>>): (r: Result<seq<T>>)
    ensures !IsConnected(db) ==> r.Err? && r.error == NotConnectedMessage
    ensures IsConnected(db) && answer.Err? ==> r.Err? && r.error == answer.error
    ensures IsConnected(db) && answer.Ok? ==> r == DecodeAll(answer.value)
  {
    if !IsConnected(db) then Err(NotConnectedMessage)
    else if answer.Err? then Err(answer.error)
    else DecodeAll(answer.value)
  }

  /** All projects. The source builds a project filter but sends an empty one,
      so the store's answer does not depend on any argument. */
  function QueryProjects(db: Option<Database>, store: Store): (r: Result<seq<Project>>)
    ensures !IsConnected(db) ==> r == Err(NotConnectedMessage)
    ensures IsConnected(db) && store.projects.Ok? ==> r == DecodeAll(store.projects.value)
    ensures IsConnected(db) && store.projects.Err? ==> r == Err(store.projects.error)
  {
    Fetch(db, store.projects)
  }

  /** The devices lookup with an optional project-id list and an optional
      device-id list, each comma-separated. */
  function QueryDevices(db: Option<Database>, store: Store, projectIdsCsv: Option<string>, deviceIdsCsv: Option<string>): (r: Result<seq<Device>>)
    ensures !IsConnected(db) ==> r == Err(NotConnectedMessage)
    ensures IsConnected(db) ==>
      var answer := store.devices(BuildDeviceQuery(projectIdsCsv, deviceIdsCsv));
      && (answer.Err? ==> r == Err(answer.error))
      && (answer.Ok? ==> r == DecodeAll(answer.value))
  {
    Fetch(db, store.devices(BuildDeviceQuery(projectIdsCsv, deviceIdsCsv)))
  }

  /** The enumeration of the bucket keys used for the device-id list. The
      source walks a Go map, whose order is unspecified; first-seen order is
      one such order, and CsvRoundTrip holds for every order. */
  function BucketKeys(events: seq<Event>): (keys: seq<string>)
    ensures Sequences.Distinct(keys)
    ensures forall id :: id in keys <==> id in Bucket(events)
  {
    Sequences.FirstSeen(DeviceIdsOf(events))
  }

  /** The events of a filter and window, nested by project and device. The
      events lookup sorts by timestamp; its events are bucketed by device;
      the devices with those ids are fetched; and the devices are regrouped
      into projects. Any store or decoding error aborts with that error. */
  function QueryEvents(db: Option<Database>, store: Store, filter: Filter, window: TimeRange): (r: Result<seq<ProjectWithDevices>>)
    ensures !IsConnected(db) ==> r == Err(NotConnectedMessage)
    ensures IsConnected(db) && store.events(BuildEventQuery(filter, window)).Err? ==>
      r == Err(store.events(BuildEventQuery(filter, window)).error)
    ensures var answer := store.events(BuildEventQuery(filter, window));
      IsConnected(db) && answer.Ok? && DecodeAll(answer.value).Err? ==> r == Err(DecodeAll(answer.value).error)
    ensures var answer := store.events(BuildEventQuery(filter, window));
      IsConnected(db) && answer.Ok? && DecodeAll(answer.value).Ok? ==>
      var devices := QueryDevices(db, store, None, Some(Csv(BucketKeys(DecodeAll(answer.value).value))));
      devices.Err? ==> r == Err(devices.error)
  {
    if !IsConnected(db) then Err(NotConnectedMessage)
    else
      match Fetch(db, store.events(BuildEventQuery(filter, window)))
      case Err(e) => Err(e)
      case Ok(events) =>
        match QueryDevices(db, store, None, Some(Csv(BucketKeys(events))))
        case Err(e) => Err(e)
        case Ok(devices) => Ok(Group(devices, Bucket(events)))
  }

  /** The events an Ok answer of QueryEvents is built from. */
  lemma QueryEventsParts(db: Option<Database>, store: Store, filter: Filter, window: TimeRange)
    returns (events: seq<Event>, devices: seq<Device>)
    requires QueryEvents(db, store, filter, window).Ok?
    ensures IsConnected(db)
    ensures store.events(BuildEventQuery(filter, window)).Ok?
    ensures DecodeAll(store.events(BuildEventQuery(filter, window)).value) == Ok(events)
    ensures QueryDevices(db, store, None, Some(Csv(BucketKeys(events)))) == Ok(devices)
    ensures QueryEvents(db, store, filter, window) == Ok(Group(devices, Bucket(events)))
  {
    events := DecodeAll(store.events(BuildEventQuery(filter, window)).value).value;
    devices := QueryDevices(db, store, None, Some(Csv(BucketKeys(events)))).value;
  }

  /** The answer lists device d under a project with d's project id, and
      the entry of d carries event e. */
  predicate ListsEvent(ps: seq<ProjectWithDevices>, d: Device, e: Event)
  {
    exists j, k :: 0 <= j < |ps| && 0 <= k < |ps[j].devices| &&
      ps[j].project.id == d.projectId && ps[j].devices[k].device == d && e in ps[j].devices[k].events
  }

  /** A successful answer loses no event: every decoded event whose device
      was fetched is listed, under that device, in the project of the
      device's project id. */
  lemma QueryEventsComplete(db: Option<Database>, store: Store, filter: Filter, window: TimeRange)
    returns (events: seq<Event>, devices: seq<Device>)
    requires QueryEvents(db, store, filter, window).Ok?
    ensures store.events(BuildEventQuery(filter, window)).Ok?
    ensures DecodeAll(store.events(BuildEventQuery(filter, window)).value) == Ok(events)
    ensures QueryDevices(db, store, None, Some(Csv(BucketKeys(events)))) == Ok(devices)
    ensures forall i, x :: 0 <= i < |devices| && 0 <= x < |events| && events[x].deviceId == devices[i].id ==>
      ListsEvent(QueryEvents(db, store, filter, window).value, devices[i], events[x])
  {
    events, devices := QueryEventsParts(db, store, filter, window);
    forall i, x | 0 <= i < |devices| && 0 <= x < |events| && events[x].deviceId == devices[i].id
      ensures ListsEvent(Group(devices, Bucket(events)), devices[i], events[x])
    {
      GroupListsEvent(events, devices, i, x);
    }
  }

  lemma GroupListsEvent(events: seq<Event>, devices: seq<Device>, i: nat, x: nat)
    requires i < |devices| && x < |events| && events[x].deviceId == devices[i].id
    ensures ListsEvent(Group(devices, Bucket(events)), devices[i], events[x])
  {
    var m := Bucket(events);
    var g := Group(devices, m);
    GroupPlacesEachDeviceOnce(devices, m);
    var j := Sequences.FirstIndex(ProjectIds(g), devices[i].projectId);
    assert Attach(devices[i], m) in g[j].devices;
    var k :| 0 <= k < |g[j].devices| && g[j].devices[k] == Attach(devices[i], m);
    EventInOwnBucket(events, x);
    assert events[x].deviceId in DeviceIdsOf(events);
    assert events[x] in g[j].devices[k].events;
  }

  /** Events sorted by timestamp, oldest first. */
  predicate SortedByTime(s: seq<Event>)
  {
    forall i, j :: 0 <= i < j < |s| ==> s[i].timestamp <= s[j].timestamp
  }

  /** A store that honours events finds: every record it answers with
      satisfies the find, and the cursor is sorted when sorting is asked. */
  ghost predicate HonoursEventQueries(store: Store)
  {
    forall q :: store.events(q).Ok? ==> CursorAnswers(q, store.events(q).value)
  }

  predicate CursorAnswers(q: EventQuery, c: Cursor<Event>)
  {
    && (forall i :: 0 <= i < |c| && c[i].Ok? ==> EventMatches(q, c[i].value))
    && (q.sortByTimestampAscending ==>
         forall i, j :: 0 <= i < j < |c| && c[i].Ok? && c[j].Ok? ==> c[i].value.timestamp <= c[j].value.timestamp)
  }

  /** A store that honours devices finds. */
  ghost predicate HonoursDeviceQueries(store: Store)
  {
    forall q :: store.devices(q).Ok? ==>
      forall i :: 0 <= i < |store.devices(q).value| && store.devices(q).value[i].Ok? ==> DeviceMatches(q, store.devices(q).value[i].value)
  }

  /** One device of the answer fits the query: its events belong to it,
      satisfy the events find, and are sorted by timestamp. */
  predicate DeviceFits(dw: DeviceWithEvents, q: EventQuery)
  {
    && SortedByTime(dw.events)
    && forall x :: 0 <= x < |dw.events| ==> dw.events[x].deviceId == dw.device.id && EventMatches(q, dw.events[x])
  }

  predicate ProjectFits(p: ProjectWithDevices, q: EventQuery)
  {
    forall k :: 0 <= k < |p.devices| ==> p.devices[k].device.projectId == p.project.id && DeviceFits(p.devices[k], q)
  }

  /** The events of a bucket are the bucketed sequence's events of that
      device, taken at ascending positions, so in cursor order, each once; a
      bucket of a sorted cursor is therefore sorted. */
  lemma EventsOfIsSubsequence(events: seq<Event>, id: string)
    ensures |EventsOf(events, id)| == |Positions(events, id)|
    ensures forall x :: 0 <= x < |EventsOf(events, id)| ==> EventsOf(events, id)[x] == events[Positions(events, id)[x]]
    ensures forall x, y :: 0 <= x < y < |Positions(events, id)| ==> Positions(events, id)[x] < Positions(events, id)[y]
    ensures forall i :: 0 <= i < |events| && events[i].deviceId == id ==> i in Positions(events, id)
    ensures SortedByTime(events) ==> SortedByTime(EventsOf(events, id))
  {
    EventsOfAtPositions(events, id);
    if SortedByTime(events) {
      EventsOfSorted(events, id);
    }
  }

  lemma {:induction false} EventsOfMembers(events: seq<Event>, id: string)
    ensures forall x :: 0 <= x < |EventsOf(events, id)| ==> EventsOf(events, id)[x] in events
    decreases |events|
  {
    var n := |events|;
    if n > 0 {
      var pre := events[..n - 1];
      EventsOfMembers(pre, id);
      assert events == pre + [events[n - 1]];
    }
  }

  lemma {:induction false} EventsOfSorted(events: seq<Event>, id: string)
    requires SortedByTime(events)
    ensures SortedByTime(EventsOf(events, id))
    decreases |events|
  {
    var n := |events|;
    if n > 0 {
      var pre, last := events[..n - 1], events[n - 1];
      assert SortedByTime(pre);
      EventsOfSorted(pre, id);
      EventsOfMembers(pre, id);
      var b := EventsOf(pre, id);
      forall x | 0 <= x < |b|
        ensures b[x].timestamp <= last.timestamp
      {
        var i :| 0 <= i < |pre| && pre[i] == b[x];
        assert pre[i] == events[i];
      }
      if last.deviceId == id {
        assert EventsOf(events, id) == b + [last];
      } else {
        assert EventsOf(events, id) == b;
      }
    }
  }

  /** The records of a fully decoded cursor that answers a find satisfy it
      and, when sorting was asked, are sorted. */
  lemma DecodedAnswer(q: EventQuery, c: Cursor<Event>, events: seq<Event>)
    requires CursorAnswers(q, c)
    requires DecodeAll(c) == Ok(events)
    ensures forall i :: 0 <= i < |events| ==> EventMatches(q, events[i])
    ensures q.sortByTimestampAscending ==> SortedByTime(events)
  {
  }

  /** Regrouping events that all satisfy a find, sorted by timestamp, gives
      projects that fit the find. */
  lemma GroupFits(events: seq<Event>, devices: seq<Device>, q: EventQuery)
    requires forall i :: 0 <= i < |events| ==> EventMatches(q, events[i])
    requires SortedByTime(events)
    ensures var g := Group(devices, Bucket(events));
      forall j :: 0 <= j < |g| ==> ProjectFits(g[j], q)
  {
    var g := Group(devices, Bucket(events));
    GroupShape(devices, Bucket(events));
    GroupedEventsAreBuckets(events, devices);
    forall j, k | 0 <= j < |g| && 0 <= k < |g[j].devices|
      ensures g[j].devices[k].device.projectId == g[j].project.id
      ensures DeviceFits(g[j].devices[k], q)
    {
      var dw := g[j].devices[k];
      assert dw.events == EventsOf(events, dw.device.id);
      EventsOfIsSubsequence(events, dw.device.id);
    }
  }

  /** Against a store that honours events finds, every project of a
      successful answer lists devices of that project, and every device
      carries only its own events, each satisfying the filter and window, in
      ascending timestamp order. */
  lemma QueryEventsSound(db: Option<Database>, store: Store, filter: Filter, window: TimeRange)
    requires HonoursEventQueries(store)
    requires QueryEvents(db, store, filter, window).Ok?
    ensures var r := QueryEvents(db, store, filter, window).value;
      forall j :: 0 <= j < |r| ==> ProjectFits(r[j], BuildEventQuery(filter, window))
  {
    var q := BuildEventQuery(filter, window);
    var events, devices := QueryEventsParts(db, store, filter, window);
    DecodedAnswer(q, store.events(q).value, events);
    GroupFits(events, devices, q);
  }

  /** Against a store that honours devices finds, a device of a successful
      answer has at least one event unless its id is "": the devices lookup
      asks for exactly the bucket keys, or for the id "" when there were no
      events at all, since the source does not skip that lookup. */
  lemma FetchedDevicesHaveEvents(db: Option<Database>, store: Store, filter: Filter, window: TimeRange)
    requires HonoursDeviceQueries(store)
    requires QueryEvents(db, store, filter, window).Ok?
    requires store.events(BuildEventQuery(filter, window)).Ok?
    requires forall i :: 0 <= i < |store.events(BuildEventQuery(filter, window)).value| ==>
      (store.events(BuildEventQuery(filter, window)).value[i].Ok? ==> ',' !in store.events(BuildEventQuery(filter, window)).value[i].value.deviceId)
    ensures var g := QueryEvents(db, store, filter, window).value;
      forall j, k :: 0 <= j < |g| && 0 <= k < |g[j].devices| ==> |g[j].devices[k].events| > 0 || g[j].devices[k].device.id == ""
    ensures var g := QueryEvents(db, store, filter, window).value;
      |store.events(BuildEventQuery(filter, window)).value| > 0 ==>
      forall j, k :: 0 <= j < |g| && 0 <= k < |g[j].devices| ==> |g[j].devices[k].events| > 0
  {
    var events, devices := QueryEventsParts(db, store, filter, window);
    var keys := BucketKeys(events);
    var dq := BuildDeviceQuery(None, Some(Csv(keys)));
    assert |events| == |store.events(BuildEventQuery(filter, window)).value|;
    DecodedIdsHaveNoComma(store.events(BuildEventQuery(filter, window)).value, events);
    KeysHaveNoComma(events, keys);
    DevicesHaveBuckets(events, devices, keys, dq, store.devices(dq).value);
  }

  lemma DecodedIdsHaveNoComma(c: Cursor<Event>, events: seq<Event>)
    requires DecodeAll(c) == Ok(events)
    requires forall i :: 0 <= i < |c| ==> (c[i].Ok? ==> ',' !in c[i].value.deviceId)
    ensures forall x :: 0 <= x < |events| ==> ',' !in events[x].deviceId
  {
  }

  lemma KeysHaveNoComma(events: seq<Event>, keys: seq<string>)
    requires forall x :: 0 <= x < |events| ==> ',' !in events[x].deviceId
    requires keys == BucketKeys(events)
    ensures forall i :: 0 <= i < |keys| ==> ',' !in keys[i]
  {
    forall i | 0 <= i < |keys| ensures ',' !in keys[i] {
      assert keys[i] in DeviceIdsOf(events);
    }
  }

  lemma DevicesHaveBuckets(events: seq<Event>, devices: seq<Device>, keys: seq<string>, dq: DeviceQuery, c: Cursor<Device>)
    requires keys == BucketKeys(events)
    requires dq == BuildDeviceQuery(None, Some(Csv(keys)))
    requires forall i :: 0 <= i < |c| && c[i].Ok? ==> DeviceMatches(dq, c[i].value)
    requires DecodeAll(c) == Ok(devices)
    requires forall i :: 0 <= i < |keys| ==> ',' !in keys[i]
    ensures var g := Group(devices, Bucket(events));
      forall j, k :: 0 <= j < |g| && 0 <= k < |g[j].devices| ==>
        && (|g[j].devices[k].events| > 0 || g[j].devices[k].device.id == "")
        && (|events| > 0 ==> |g[j].devices[k].events| > 0)
  {
    var g := Group(devices, Bucket(events));
    GroupShape(devices, Bucket(events));
    forall j, k | 0 <= j < |g| && 0 <= k < |g[j].devices|
      ensures |g[j].devices[k].events| > 0 || g[j].devices[k].device.id == ""
      ensures |events| > 0 ==> |g[j].devices[k].events| > 0
    {
      var dw := g[j].devices[k];
      assert dw == Attach(dw.device, Bucket(events)) && dw.device in devices;
      FetchedDeviceHasBucket(events, devices, keys, dq, c, dw.device);
    }
  }

  /** A device read from the devices cursor has a non-empty bucket unless its
      id is "" and there were no events at all. */
  lemma FetchedDeviceHasBucket(events: seq<Event>, devices: seq<Device>, keys: seq<string>, dq: DeviceQuery, c: Cursor<Device>, d: Device)
    requires keys == BucketKeys(events)
    requires dq == BuildDeviceQuery(None, Some(Csv(keys)))
    requires forall i :: 0 <= i < |c| && c[i].Ok? ==> DeviceMatches(dq, c[i].value)
    requires DecodeAll(c) == Ok(devices)
    requires forall i :: 0 <= i < |keys| ==> ',' !in keys[i]
    requires d in devices
    ensures |Attach(d, Bucket(events)).events| > 0 || d.id == ""
    ensures |events| > 0 ==> |Attach(d, Bucket(events)).events| > 0
  {
    var i :| 0 <= i < |devices| && devices[i] == d;
    assert c[i].Ok? && devices[i] == c[i].value;
    assert DeviceMatches(dq, d);
    DeviceHasBucket(events, keys, d);
    if |events| > 0 {
      assert events[0].deviceId in Bucket(events);
    }
  }

  /** A device whose id is on the device-id list has a non-empty bucket,
      unless the list was empty and the id is "". */
  lemma DeviceHasBucket(events: seq<Event>, keys: seq<string>, d: Device)
    requires keys == BucketKeys(events)
    requires forall i :: 0 <= i < |keys| ==> ',' !in keys[i]
    requires d.id in SplitIds(Csv(keys))
    ensures |Attach(d, Bucket(events)).events| > 0 || d.id == ""
    ensures |keys| > 0 ==> |Attach(d, Bucket(events)).events| > 0
  {
    CsvRoundTrip(keys);
    if |keys| > 0 {
      assert d.id in Bucket(events);
    }
  }
}
