/** The event-grouping part of QueryEvents: bucketing the time-ordered events
    by device, the device-id list for the second lookup, and the regrouping
    of the fetched devices into projects in first-seen order. */
module Grouping {

  import opened Types
  import opened Sequences
  import Strings

  /** The organization name given to every project built from a device's
      back-reference. */
  const PlaceholderOrganization := "Org"

  /** The device id of each event, position by position. */
  function DeviceIdsOf(events: seq<Event>): (ids: seq<string>)
    ensures |ids| == |events|
    ensures forall i :: 0 <= i < |events| ==> ids[i] == events[i].deviceId
  {
    seq(|events|, i requires 0 <= i < |events| => events[i].deviceId)
  }

  /** The events of one device, in input order. */
  function EventsOf(events: seq<Event>, deviceId: string): (r: seq<Event>)
    ensures forall i :: 0 <= i < |r| ==> r[i].deviceId == deviceId
    ensures deviceId !in DeviceIdsOf(events) ==> r == []
    ensures deviceId in DeviceIdsOf(events) ==> |r| > 0
    decreases |events|
  {
    if |events| == 0 then []
    else
      var n := |events|;
      assert DeviceIdsOf(events) == DeviceIdsOf(events[..n - 1]) + [events[n - 1].deviceId];
      var pre := EventsOf(events[..n - 1], deviceId);
      if events[n - 1].deviceId == deviceId then pre + [events[n - 1]] else pre
  }

  /** The cursor positions of one device's events, in ascending order. */
  function Positions(events: seq<Event>, deviceId: string): (r: seq<nat>)
    ensures forall x :: 0 <= x < |r| ==> r[x] < |events| && events[r[x]].deviceId == deviceId
    ensures forall x, y :: 0 <= x < y < |r| ==> r[x] < r[y]
    ensures forall i :: 0 <= i < |events| && events[i].deviceId == deviceId ==> i in r
    decreases |events|
  {
    if |events| == 0 then []
    else
      var n := |events|;
      assert forall i :: 0 <= i < n - 1 ==> events[..n - 1][i] == events[i];
      var pre := Positions(events[..n - 1], deviceId);
      if events[n - 1].deviceId == deviceId then pre + [n - 1] else pre
  }

  /** A device's bucket is the subsequence of the events at that device's
      positions: nothing is dropped, reordered or repeated. */
  lemma {:induction false} EventsOfAtPositions(events: seq<Event>, deviceId: string)
    ensures |EventsOf(events, deviceId)| == |Positions(events, deviceId)|
    ensures forall x :: 0 <= x < |EventsOf(events, deviceId)| ==>
      EventsOf(events, deviceId)[x] == events[Positions(events, deviceId)[x]]
    decreases |events|
  {
    var n := |events|;
    if n > 0 {
      var pre := events[..n - 1];
      EventsOfAtPositions(pre, deviceId);
      var b, ps := EventsOf(pre, deviceId), Positions(pre, deviceId);
      var tail := if events[n - 1].deviceId == deviceId then [events[n - 1]] else [];
      var tailPos := if events[n - 1].deviceId == deviceId then [n - 1] else [];
      assert EventsOf(events, deviceId) == b + tail;
      assert Positions(events, deviceId) == ps + tailPos;
      AtPositionsStep(events, b, ps, tail, tailPos);
    }
  }

  lemma AtPositionsStep(events: seq<Event>, b: seq<Event>, ps: seq<nat>, tail: seq<Event>, tailPos: seq<nat>)
    requires |events| > 0 && |b| == |ps|
    requires forall x :: 0 <= x < |ps| ==> ps[x] < |events| - 1 && b[x] == events[..|events| - 1][ps[x]]
    requires (tail == [] && tailPos == []) || (tail == [events[|events| - 1]] && tailPos == [|events| - 1])
    ensures |b + tail| == |ps + tailPos|
    ensures forall x :: 0 <= x < |b + tail| ==> (b + tail)[x] == events[(ps + tailPos)[x]]
  {
  }

  /** The per-device buckets: each event, in input order, is appended to the
      bucket of its own device id, and a bucket exists exactly for the device
      ids that occur. */
  function Bucket(events: seq<Event>): (m: map<string, seq<Event>>)
    ensures forall id :: id in m <==> id in DeviceIdsOf(events)
    ensures forall id :: id in m ==> m[id] == EventsOf(events, id)
    decreases |events|
  {
    if |events| == 0 then map[]
    else
      var n := |events|;
      var e := events[n - 1];
      assert DeviceIdsOf(events) == DeviceIdsOf(events[..n - 1]) + [e.deviceId];
      var pre := Bucket(events[..n - 1]);
      pre[e.deviceId := (if e.deviceId in pre then pre[e.deviceId] else []) + [e]]
  }

  /** Every event lies in the bucket of its own device, every bucket holds
      only events of its own device, and no bucket is empty. */
  lemma BucketPartitions(events: seq<Event>, i: nat)
    requires i < |events|
    ensures events[i] in Bucket(events)[events[i].deviceId]
    ensures forall id :: id in Bucket(events) ==> |Bucket(events)[id]| > 0
    ensures forall id, k :: id in Bucket(events) && 0 <= k < |Bucket(events)[id]| ==> Bucket(events)[id][k].deviceId == id
  {
    EventInOwnBucket(events, i);
  }

  lemma {:induction false} EventInOwnBucket(events: seq<Event>, i: nat)
    requires i < |events|
    ensures events[i] in EventsOf(events, events[i].deviceId)
    decreases |events|
  {
    var n := |events|;
    if i < n - 1 {
      assert events[..n - 1][i] == events[i];
      EventInOwnBucket(events[..n - 1], i);
    }
  }

  /** The sum of the bucket lengths over an enumeration of device ids. */
  function TotalLength(events: seq<Event>, ids: seq<string>): nat
    decreases |ids|
  {
    if |ids| == 0 then 0 else |EventsOf(events, ids[0])| + TotalLength(events, ids[1..])
  }

  lemma {:induction false} TotalLengthOfNothing(ids: seq<string>)
    ensures TotalLength([], ids) == 0
    decreases |ids|
  {
    if |ids| > 0 {
      TotalLengthOfNothing(ids[1..]);
    }
  }

  lemma {:induction false} TotalLengthStep(events: seq<Event>, e: Event, ids: seq<string>)
    ensures TotalLength(events + [e], ids) == TotalLength(events, ids) + Count(ids, e.deviceId)
    decreases |ids|
  {
    if |ids| > 0 {
      TotalLengthStep(events, e, ids[1..]);
      assert (events + [e])[..|events|] == events;
    }
  }

  /** Over any duplicate-free enumeration of the bucket keys (the source walks
      a Go map, whose order is unspecified) the bucket lengths add up to the
      number of events. */
  lemma {:induction false} BucketSizesSum(events: seq<Event>, keys: seq<string>)
    requires Distinct(keys)
    requires forall id :: id in keys <==> id in Bucket(events)
    ensures TotalLength(events, keys) == |events|
  {
    BucketSizesCover(events, keys);
  }

  lemma {:induction false} BucketSizesCover(events: seq<Event>, keys: seq<string>)
    requires Distinct(keys)
    requires forall i :: 0 <= i < |events| ==> events[i].deviceId in keys
    ensures TotalLength(events, keys) == |events|
    decreases |events|
  {
    var n := |events|;
    if n == 0 {
      TotalLengthOfNothing(keys);
    } else {
      var pre, e := events[..n - 1], events[n - 1];
      assert pre + [e] == events;
      assert forall i :: 0 <= i < |pre| ==> pre[i] == events[i];
      BucketSizesCover(pre, keys);
      TotalLengthStep(pre, e, keys);
      DistinctCount(keys, e.deviceId);
      assert TotalLength(events, keys) == TotalLength(pre, keys) + Count(keys, e.deviceId) == |pre| + 1;
    }
  }

  /** The device-id list built by the loop that appends the separator and the
      next key: "" for no keys, otherwise the keys separated by commas. */
  function Csv(keys: seq<string>): string
    decreases |keys|
  {
    if |keys| == 0 then ""
    else Csv(keys[..|keys| - 1]) + (if |keys| == 1 then "" else ",") + keys[|keys| - 1]
  }

  lemma {:induction false} CsvIsJoin(keys: seq<string>)
    ensures Csv(keys) == Strings.Join(keys, ',')
    decreases |keys|
  {
    var n := |keys|;
    if n > 1 {
      CsvIsJoin(keys[..n - 1]);
      JoinAppend(keys[..n - 1], keys[n - 1]);
      assert keys[..n - 1] + [keys[n - 1]] == keys;
    }
  }

  lemma {:induction false} JoinAppend(parts: seq<string>, x: string)
    requires |parts| >= 1
    ensures Strings.Join(parts + [x], ',') == Strings.Join(parts, ',') + [','] + x
    decreases |parts|
  {
    if |parts| > 1 {
      JoinAppend(parts[1..], x);
      assert (parts + [x])[1..] == parts[1..] + [x];
    }
  }

  /** Splitting the device-id list at commas gives back each key exactly
      once, in order, when no key holds a comma; with no keys it gives the
      single id "", which the devices lookup treats as a real id. */
  lemma CsvRoundTrip(keys: seq<string>)
    requires forall i :: 0 <= i < |keys| ==> ',' !in keys[i]
    ensures Strings.Split(Csv(keys), ',') == if |keys| == 0 then [""] else keys
  {
    CsvIsJoin(keys);
    if |keys| > 0 {
      Strings.SplitJoin(keys, ',');
    }
  }

  /** A device paired with its bucket; a device without a bucket gets none. */
  function Attach(d: Device, buckets: map<string, seq<Event>>): DeviceWithEvents
  {
    DeviceWithEvents(d, if d.id in buckets then buckets[d.id] else [])
  }

  /** The project record made from a device's project id. */
  function NewProject(projectId: string): Project
  {
    Project(projectId, projectId, PlaceholderOrganization)
  }

  function ProjectIds(ps: seq<ProjectWithDevices>): (ids: seq<string>)
    ensures |ids| == |ps|
    ensures forall j :: 0 <= j < |ps| ==> ids[j] == ps[j].project.id
  {
    seq(|ps|, j requires 0 <= j < |ps| => ps[j].project.id)
  }

  /** The position of the project with the given id; the source keeps this
      lookup in a map from project id to the list entry. */
  function FindProject(ps: seq<ProjectWithDevices>, projectId: string): (r: Option<nat>)
    ensures r.Some? ==> r.value < |ps| && ps[r.value].project.id == projectId
    ensures r.None? ==> projectId !in ProjectIds(ps)
    decreases |ps|
  {
    if |ps| == 0 then None
    else if ps[0].project.id == projectId then Some(0)
    else
      assert ProjectIds(ps) == [ps[0].project.id] + ProjectIds(ps[1..]);
      match FindProject(ps[1..], projectId)
      case Some(j) => Some(j + 1)
      case None => None
  }

  /** One step of the regrouping loop: the device joins its project's list,
      which is created at the end the first time its project id is seen. */
  function Place(ps: seq<ProjectWithDevices>, d: Device, buckets: map<string, seq<Event>>): seq<ProjectWithDevices>
  {
    match FindProject(ps, d.projectId)
    case Some(j) => ps[j := ps[j].(devices := ps[j].devices + [Attach(d, buckets)])]
    case None => ps + [ProjectWithDevices(NewProject(d.projectId), [Attach(d, buckets)])]
  }

  /** The regrouping of the fetched devices, taken in fetch order. */
  function Group(devices: seq<Device>, buckets: map<string, seq<Event>>): seq<ProjectWithDevices>
    decreases |devices|
  {
    if |devices| == 0 then []
    else Place(Group(devices[..|devices| - 1], buckets), devices[|devices| - 1], buckets)
  }

  /** The project id of each device, position by position. */
  function ProjectIdsOf(devices: seq<Device>): (ids: seq<string>)
    ensures |ids| == |devices|
    ensures forall i :: 0 <= i < |devices| ==> ids[i] == devices[i].projectId
  {
    seq(|devices|, i requires 0 <= i < |devices| => devices[i].projectId)
  }

  /** The devices of one project, in fetch order, each with its bucket. */
  function DevicesIn(devices: seq<Device>, projectId: string, buckets: map<string, seq<Event>>): (r: seq<DeviceWithEvents>)
    ensures forall k :: 0 <= k < |r| ==> r[k].device.projectId == projectId && r[k] == Attach(r[k].device, buckets)
    ensures forall k :: 0 <= k < |r| ==> r[k].device in devices
    ensures forall i :: 0 <= i < |devices| && devices[i].projectId == projectId ==> Attach(devices[i], buckets) in r
    ensures projectId !in ProjectIdsOf(devices) ==> r == []
    decreases |devices|
  {
    if |devices| == 0 then []
    else
      var n := |devices|;
      var d := devices[n - 1];
      assert ProjectIdsOf(devices) == ProjectIdsOf(devices[..n - 1]) + [d.projectId];
      assert forall i :: 0 <= i < n - 1 ==> devices[i] == devices[..n - 1][i];
      assert devices == devices[..n - 1] + [d];
      var pre := DevicesIn(devices[..n - 1], projectId, buckets);
      if d.projectId == projectId then pre + [Attach(d, buckets)] else pre
  }

  /** The shape of a regrouping of some devices: the project ids are the
      devices' project ids without repetitions in first-seen order; each
      project is a new record named by its id under the placeholder
      organization; and each project lists exactly its own devices in fetch
      order, each with its bucket. */
  ghost predicate Shaped(devices: seq<Device>, g: seq<ProjectWithDevices>, buckets: map<string, seq<Event>>)
  {
    && ProjectIds(g) == FirstSeen(ProjectIdsOf(devices))
    && forall j :: 0 <= j < |g| ==>
      && g[j].project == NewProject(g[j].project.id)
      && g[j].devices == DevicesIn(devices, g[j].project.id, buckets)
  }

  lemma {:induction false} GroupShape(devices: seq<Device>, buckets: map<string, seq<Event>>)
    ensures Shaped(devices, Group(devices, buckets), buckets)
    decreases |devices|
  {
    var n := |devices|;
    if n > 0 {
      var pre := devices[..n - 1];
      GroupShape(pre, buckets);
      assert pre + [devices[n - 1]] == devices;
      PlaceKeepsShape(pre, devices[n - 1], Group(pre, buckets), buckets);
    }
  }

  lemma PlaceKeepsShape(pre: seq<Device>, d: Device, g0: seq<ProjectWithDevices>, buckets: map<string, seq<Event>>)
    requires Shaped(pre, g0, buckets)
    ensures Shaped(pre + [d], Place(g0, d, buckets), buckets)
  {
    var devices := pre + [d];
    var ids := ProjectIdsOf(devices);
    assert ids[..|pre|] == ProjectIdsOf(pre);
    assert ids == ProjectIdsOf(pre) + [d.projectId];
    assert devices[..|pre|] == pre;
    match FindProject(g0, d.projectId)
    case Some(j) => PlaceIntoExisting(pre, d, g0, buckets, j);
    case None => PlaceAsNew(pre, d, g0, buckets);
  }

  lemma PlaceIntoExisting(pre: seq<Device>, d: Device, g0: seq<ProjectWithDevices>, buckets: map<string, seq<Event>>, j: nat)
    requires Shaped(pre, g0, buckets)
    requires j < |g0| && g0[j].project.id == d.projectId
    requires ProjectIdsOf(pre + [d]) == ProjectIdsOf(pre) + [d.projectId]
    requires (pre + [d])[..|pre|] == pre
    ensures Shaped(pre + [d], g0[j := g0[j].(devices := g0[j].devices + [Attach(d, buckets)])], buckets)
  {
    var devices := pre + [d];
    var g := g0[j := g0[j].(devices := g0[j].devices + [Attach(d, buckets)])];
    assert ProjectIds(g) == ProjectIds(g0);
    assert d.projectId in ProjectIds(g0);
    forall k | 0 <= k < |g|
      ensures g[k].project == NewProject(g[k].project.id)
      ensures g[k].devices == DevicesIn(devices, g[k].project.id, buckets)
    {
      if k != j {
        assert ProjectIds(g0)[k] != ProjectIds(g0)[j];
      }
    }
  }

  lemma PlaceAsNew(pre: seq<Device>, d: Device, g0: seq<ProjectWithDevices>, buckets: map<string, seq<Event>>)
    requires Shaped(pre, g0, buckets)
    requires d.projectId !in ProjectIds(g0)
    requires ProjectIdsOf(pre + [d]) == ProjectIdsOf(pre) + [d.projectId]
    requires (pre + [d])[..|pre|] == pre
    ensures Shaped(pre + [d], g0 + [ProjectWithDevices(NewProject(d.projectId), [Attach(d, buckets)])], buckets)
  {
    var devices := pre + [d];
    var g := g0 + [ProjectWithDevices(NewProject(d.projectId), [Attach(d, buckets)])];
    assert ProjectIds(g) == ProjectIds(g0) + [d.projectId];
    assert d.projectId !in ProjectIdsOf(pre);
    forall k | 0 <= k < |g|
      ensures g[k].project == NewProject(g[k].project.id)
      ensures g[k].devices == DevicesIn(devices, g[k].project.id, buckets)
    {
      if k < |g0| {
        assert g[k] == g0[k];
        assert g0[k].project.id in ProjectIds(g0);
      }
    }
  }

  /** The total number of devices listed over all projects. */
  function DeviceCount(ps: seq<ProjectWithDevices>): nat
    decreases |ps|
  {
    if |ps| == 0 then 0 else |ps[0].devices| + DeviceCount(ps[1..])
  }

  lemma {:induction false} DeviceCountUpdate(ps: seq<ProjectWithDevices>, j: nat, p: ProjectWithDevices)
    requires j < |ps|
    ensures DeviceCount(ps[j := p]) + |ps[j].devices| == DeviceCount(ps) + |p.devices|
    decreases |ps|
  {
    if j > 0 {
      DeviceCountUpdate(ps[1..], j - 1, p);
      assert ps[j := p][1..] == ps[1..][j - 1 := p];
    } else {
      assert ps[j := p][1..] == ps[1..];
    }
  }

  lemma {:induction false} DeviceCountAppend(ps: seq<ProjectWithDevices>, p: ProjectWithDevices)
    ensures DeviceCount(ps + [p]) == DeviceCount(ps) + |p.devices|
    decreases |ps|
  {
    if |ps| > 0 {
      DeviceCountAppend(ps[1..], p);
      assert (ps + [p])[1..] == ps[1..] + [p];
    }
  }

  /** Each fetched device is placed exactly once: the projects list as many
      devices as were fetched, and a device appears in the project whose id
      is its project id and in no other. */
  lemma {:induction false} GroupPlacesEachDeviceOnce(devices: seq<Device>, buckets: map<string, seq<Event>>)
    ensures DeviceCount(Group(devices, buckets)) == |devices|
    ensures forall i, j :: 0 <= i < |devices| && 0 <= j < |Group(devices, buckets)| ==>
      (Attach(devices[i], buckets) in Group(devices, buckets)[j].devices <==> Group(devices, buckets)[j].project.id == devices[i].projectId)
    ensures forall i :: 0 <= i < |devices| ==> devices[i].projectId in ProjectIds(Group(devices, buckets))
    decreases |devices|
  {
    GroupShape(devices, buckets);
    var g := Group(devices, buckets);
    var n := |devices|;
    if n > 0 {
      var pre := devices[..n - 1];
      var d := devices[n - 1];
      var g0 := Group(pre, buckets);
      GroupPlacesEachDeviceOnce(pre, buckets);
      match FindProject(g0, d.projectId)
      case Some(j) =>
        DeviceCountUpdate(g0, j, g0[j].(devices := g0[j].devices + [Attach(d, buckets)]));
      case None =>
        DeviceCountAppend(g0, ProjectWithDevices(NewProject(d.projectId), [Attach(d, buckets)]));
    }
    forall i | 0 <= i < n ensures devices[i].projectId in ProjectIds(g) {
      assert ProjectIdsOf(devices)[i] == devices[i].projectId;
    }
  }

  /** With the buckets of an event sequence, every listed device carries
      exactly the events of that device, in the order of the sequence. */
  lemma GroupedEventsAreBuckets(events: seq<Event>, devices: seq<Device>)
    ensures var g := Group(devices, Bucket(events));
      forall j, k :: 0 <= j < |g| && 0 <= k < |g[j].devices| ==> g[j].devices[k].events == EventsOf(events, g[j].devices[k].device.id)
  {
    var m := Bucket(events);
    GroupShape(devices, m);
  }
}
