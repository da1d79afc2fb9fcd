/** The request handlers of the datasource: dispatch of each query by entity,
    the projects and devices tables, and the events frames with their live
    channel. JSON decoding of a query is a parameter: each query arrives
    either decoded or with the decoder's error. */
module Plugin {

  import opened Types
  import opened Frames
  import opened DatabaseWrapper
  import Filters
  import Grouping

  /** The datasource-scoped live channel scope. */
  const ScopeDatasource := "ds"

  /** The decoded JSON of one query. */
  datatype QueryModel = QueryModel(entity: string, parameters: map<string, string>, withStreaming: bool)

  datatype DataQuery = DataQuery(refId: string, json: Result<QueryModel>, timeRange: TimeRange)

  datatype DataResponse = DataResponse(error: Option<string>, frames: seq<Frame>)

  /** The datasource instance: its connection handle and the store behind it. */
  datatype Datasource = Datasource(db: Option<Database>, store: Store)

  function Failed(e: string): DataResponse
  {
    DataResponse(Some(e), [])
  }

  /** The projects table: one frame "response" with an id column and a name
      column, row i taken from the i-th project, or the lookup's error. */
  function HandleProjectsQuery(ds: Datasource): (r: DataResponse)
    ensures QueryProjects(ds.db, ds.store).Err? ==> r == Failed(QueryProjects(ds.db, ds.store).error)
    ensures QueryProjects(ds.db, ds.store).Ok? ==>
      var ps := QueryProjects(ds.db, ds.store).value;
      && r.error.None? && |r.frames| == 1
      && r.frames[0].name == "response" && |r.frames[0].fields| == 2
      && r.frames[0].fields[0].name == "id" && r.frames[0].fields[1].name == "name"
      && r.frames[0].fields[0].column.Texts? && r.frames[0].fields[1].column.Texts?
      && |r.frames[0].fields[0].column.texts| == |r.frames[0].fields[1].column.texts| == |ps|
      && forall i :: 0 <= i < |ps| ==>
        r.frames[0].fields[0].column.texts[i] == ps[i].id && r.frames[0].fields[1].column.texts[i] == ps[i].displayName
  {
    match QueryProjects(ds.db, ds.store)
    case Err(e) => Failed(e)
    case Ok(ps) =>
      var ids := seq(|ps|, i requires 0 <= i < |ps| => ps[i].id);
      var names := seq(|ps|, i requires 0 <= i < |ps| => ps[i].displayName);
      DataResponse(None, [Frame("response", [Field("id", map[], Texts(ids)), Field("name", map[], Texts(names))], None)])
  }

  /** The project filter of a devices query: present exactly when the
      "projects" parameter is. The "fields" parameter is read and ignored. */
  function ProjectsParameter(qm: QueryModel): (csv: Option<string>)
  {
    if "projects" in qm.parameters then Some(qm.parameters["projects"]) else None
  }

  /** The devices find a devices query sends restricts project ids exactly
      when the "projects" parameter is present, and never restricts device
      ids. */
  lemma DevicesQueryFilter(qm: QueryModel)
    ensures Filters.BuildDeviceQuery(ProjectsParameter(qm), None).projectIds.Some? <==> "projects" in qm.parameters
    ensures "projects" in qm.parameters ==>
      Filters.BuildDeviceQuery(ProjectsParameter(qm), None).projectIds == Some(Filters.SplitIds(qm.parameters["projects"]))
    ensures Filters.BuildDeviceQuery(ProjectsParameter(qm), None).deviceIds.None?
  {
  }

  /** The devices table: one frame "response" with id, name, project_id and
      type columns, row i taken from the i-th device, or the lookup's error. */
  function HandleDevicesQuery(ds: Datasource, qm: QueryModel): (r: DataResponse)
    ensures QueryDevices(ds.db, ds.store, ProjectsParameter(qm), None).Err? ==>
      r == Failed(QueryDevices(ds.db, ds.store, ProjectsParameter(qm), None).error)
    ensures QueryDevices(ds.db, ds.store, ProjectsParameter(qm), None).Ok? ==>
      var ds' := QueryDevices(ds.db, ds.store, ProjectsParameter(qm), None).value;
      && r.error.None? && |r.frames| == 1
      && r.frames[0].name == "response" && |r.frames[0].fields| == 4
      && r.frames[0].fields[0].name == "id" && r.frames[0].fields[1].name == "name"
      && r.frames[0].fields[2].name == "project_id" && r.frames[0].fields[3].name == "type"
      && (forall c :: 0 <= c < 4 ==> r.frames[0].fields[c].column.Texts? && |r.frames[0].fields[c].column.texts| == |ds'|)
      && forall i :: 0 <= i < |ds'| ==>
        && r.frames[0].fields[0].column.texts[i] == ds'[i].id
        && r.frames[0].fields[1].column.texts[i] == ds'[i].labels.name
        && r.frames[0].fields[2].column.texts[i] == ds'[i].projectId
        && r.frames[0].fields[3].column.texts[i] == ds'[i].deviceType
  {
    match QueryDevices(ds.db, ds.store, ProjectsParameter(qm), None)
    case Err(e) => Failed(e)
    case Ok(devices) =>
      var ids := seq(|devices|, i requires 0 <= i < |devices| => devices[i].id);
      var names := seq(|devices|, i requires 0 <= i < |devices| => devices[i].labels.name);
      var projectIds := seq(|devices|, i requires 0 <= i < |devices| => devices[i].projectId);
      var types := seq(|devices|, i requires 0 <= i < |devices| => devices[i].deviceType);
      DataResponse(None, [Frame("response", [
        Field("id", map[], Texts(ids)),
        Field("name", map[], Texts(names)),
        Field("project_id", map[], Texts(projectIds)),
        Field("type", map[], Texts(types))], None)])
  }

  /** The events filter read from a query's parameters: the dimension is the
      "filter" parameter, or "" when it is missing; the id list is the
      parameter named by that dimension, or "" when it is missing. */
  function ExtractFilter(parameters: map<string, string>): (f: Filter)
    ensures "filter" in parameters ==> f.entity == parameters["filter"]
    ensures "filter" !in parameters ==> f.entity == ""
    ensures f.entity in parameters ==> f.value == parameters[f.entity]
    ensures f.entity !in parameters ==> f.value == ""
  {
    var entity := if "filter" in parameters then parameters["filter"] else "";
    Filter(entity, if entity in parameters then parameters[entity] else "")
  }

  /** Without a "filter" parameter (and without a parameter named ""), an
      events query selects on project id against the single id "", so only
      events of a project with the empty id can match. */
  lemma MissingFilterMatchesEmptyProjectId(parameters: map<string, string>, window: TimeRange, e: Event)
    requires "filter" !in parameters && "" !in parameters
    requires Filters.EventMatches(Filters.BuildEventQuery(ExtractFilter(parameters), window), e)
    ensures e.projectId == ""
  {
    assert Filters.SplitIds("") == [""];
  }

  /** The live channel path of a device's stream. */
  function ChannelPath(deviceId: string): string
  {
    "stream/device/" + deviceId
  }

  /** Every (project, device) pair, projects in order and each project's
      devices in order. */
  function Pairs(ps: seq<ProjectWithDevices>): (r: seq<(Project, DeviceWithEvents)>)
    ensures |r| == Grouping.DeviceCount(ps)
    decreases |ps|
  {
    if |ps| == 0 then []
    else seq(|ps[0].devices|, k requires 0 <= k < |ps[0].devices| => (ps[0].project, ps[0].devices[k])) + Pairs(ps[1..])
  }

  /** The frame of one pair, with the device's channel when streaming. */
  function PairFrame(pair: (Project, DeviceWithEvents), withStreaming: bool, uid: string): Frame
  {
    var f := DeviceToFrame(pair.0, pair.1);
    if withStreaming then f.(channel := Some(Channel(ScopeDatasource, uid, ChannelPath(pair.1.device.id)))) else f
  }

  /** The frames of one project's devices, in order. */
  function DeviceFrames(project: Project, devices: seq<DeviceWithEvents>, withStreaming: bool, uid: string): (r: seq<Frame>)
    ensures |r| == |devices|
    ensures forall k :: 0 <= k < |devices| ==> r[k] == PairFrame((project, devices[k]), withStreaming, uid)
    decreases |devices|
  {
    if |devices| == 0 then []
    else [PairFrame((project, devices[0]), withStreaming, uid)] + DeviceFrames(project, devices[1..], withStreaming, uid)
  }

  /** The frames of an events answer: one per device per project, in nested
      order, each named by its project and carrying the channel
      "stream/device/<device id>" exactly when streaming is asked. */
  function EventFrames(ps: seq<ProjectWithDevices>, withStreaming: bool, uid: string): (r: seq<Frame>)
    ensures |r| == |Pairs(ps)|
    ensures forall i :: 0 <= i < |r| ==> r[i] == PairFrame(Pairs(ps)[i], withStreaming, uid)
    decreases |ps|
  {
    if |ps| == 0 then []
    else DeviceFrames(ps[0].project, ps[0].devices, withStreaming, uid) + EventFrames(ps[1..], withStreaming, uid)
  }

  /** What the i-th frame of an events answer says about its pair. */
  lemma EventFrameContents(ps: seq<ProjectWithDevices>, withStreaming: bool, uid: string, i: nat)
    requires i < |Pairs(ps)|
    ensures EventFrames(ps, withStreaming, uid)[i].name == Pairs(ps)[i].0.id
    ensures EventFrames(ps, withStreaming, uid)[i].channel.Some? <==> withStreaming
    ensures withStreaming ==>
      EventFrames(ps, withStreaming, uid)[i].channel == Some(Channel(ScopeDatasource, uid, ChannelPath(Pairs(ps)[i].1.device.id)))
    ensures EventFrames(ps, withStreaming, uid)[i].fields == DeviceToFrame(Pairs(ps)[i].0, Pairs(ps)[i].1).fields
  {
  }

  /** The events answer: the frames of every device of every project, or the
      lookup's error. */
  function HandleEventsQuery(ds: Datasource, q: DataQuery, qm: QueryModel, uid: string): (r: DataResponse)
    ensures QueryEvents(ds.db, ds.store, ExtractFilter(qm.parameters), q.timeRange).Err? ==>
      r == Failed(QueryEvents(ds.db, ds.store, ExtractFilter(qm.parameters), q.timeRange).error)
    ensures QueryEvents(ds.db, ds.store, ExtractFilter(qm.parameters), q.timeRange).Ok? ==>
      r.error.None? && |r.frames| == Grouping.DeviceCount(QueryEvents(ds.db, ds.store, ExtractFilter(qm.parameters), q.timeRange).value)
  {
    match QueryEvents(ds.db, ds.store, ExtractFilter(qm.parameters), q.timeRange)
    case Err(e) => Failed(e)
    case Ok(ps) => DataResponse(None, EventFrames(ps, qm.withStreaming, uid))
  }

  /** One query's response: the decoder's error, the handler of its entity,
      or "unknown entity '<entity>'". */
  function HandleQuery(ds: Datasource, uid: string, q: DataQuery): (r: DataResponse)
    ensures q.json.Err? ==> r == Failed(q.json.error)
    ensures q.json.Ok? && q.json.value.entity == "Projects" ==> r == HandleProjectsQuery(ds)
    ensures q.json.Ok? && q.json.value.entity == "Devices" ==> r == HandleDevicesQuery(ds, q.json.value)
    ensures q.json.Ok? && q.json.value.entity == "Events" ==> r == HandleEventsQuery(ds, q, q.json.value, uid)
    ensures q.json.Ok? && q.json.value.entity !in {"Projects", "Devices", "Events"} ==>
      r == Failed("unknown entity '" + q.json.value.entity + "'")
  {
    match q.json
    case Err(e) => Failed(e)
    case Ok(qm) =>
      if qm.entity == "Projects" then HandleProjectsQuery(ds)
      else if qm.entity == "Devices" then HandleDevicesQuery(ds, qm)
      else if qm.entity == "Events" then HandleEventsQuery(ds, q, qm, uid)
      else Failed("unknown entity '" + qm.entity + "'")
  }

  /** The ref ids of the queries, in order. */
  function RefIds(queries: seq<DataQuery>): (ids: seq<string>)
    ensures |ids| == |queries|
    ensures forall i :: 0 <= i < |queries| ==> ids[i] == queries[i].refId
  {
    seq(|queries|, i requires 0 <= i < |queries| => queries[i].refId)
  }

  /** The responses of a batch, keyed by ref id: every ref id gets exactly one
      response, that of the last query carrying it, and no other key is
      present. */
  function QueryData(ds: Datasource, uid: string, queries: seq<DataQuery>): (r: map<string, DataResponse>)
    ensures forall id :: id in r <==> id in RefIds(queries)
    ensures forall i :: 0 <= i < |queries| && (forall j :: i < j < |queries| ==> queries[j].refId != queries[i].refId) ==>
      r[queries[i].refId] == HandleQuery(ds, uid, queries[i])
  {
    var responses := seq(|queries|, i requires 0 <= i < |queries| => HandleQuery(ds, uid, queries[i]));
    KeyedByRef(RefIds(queries), responses)
  }

  /** Storing each response under its ref id in turn: a later response
      overwrites an earlier one with the same ref id. */
  function KeyedByRef(ids: seq<string>, responses: seq<DataResponse>): (r: map<string, DataResponse>)
    requires |ids| == |responses|
    ensures forall id :: id in r <==> id in ids
    ensures forall i :: 0 <= i < |ids| && (forall j :: i < j < |ids| ==> ids[j] != ids[i]) ==> r[ids[i]] == responses[i]
    decreases |ids|
  {
    if |ids| == 0 then map[]
    else
      var n := |ids|;
      var pre := KeyedByRef(ids[..n - 1], responses[..n - 1]);
      LaterResponseWins(ids, responses, ids[..n - 1], responses[..n - 1], pre);
      pre[ids[n - 1] := responses[n - 1]]
  }

  /** Storing the last response over the map of the earlier ones keeps the
      keys and the last-writer-wins property. */
  lemma LaterResponseWins(ids: seq<string>, responses: seq<DataResponse>, earlierIds: seq<string>, earlier: seq<DataResponse>, pre: map<string, DataResponse>)
    requires |ids| == |responses| > 0
    requires earlierIds == ids[..|ids| - 1] && earlier == responses[..|ids| - 1]
    requires forall x :: x in pre <==> x in earlierIds
    requires forall i :: 0 <= i < |earlierIds| && (forall j :: i < j < |earlierIds| ==> earlierIds[j] != earlierIds[i]) ==>
      pre[earlierIds[i]] == earlier[i]
    ensures forall x :: x in pre[ids[|ids| - 1] := responses[|ids| - 1]] <==> x in ids
    ensures forall i :: 0 <= i < |ids| && (forall j :: i < j < |ids| ==> ids[j] != ids[i]) ==>
      pre[ids[|ids| - 1] := responses[|ids| - 1]][ids[i]] == responses[i]
  {
    var n := |ids|;
    assert ids == earlierIds + [ids[n - 1]];
    forall i | 0 <= i < n && (forall j :: i < j < n ==> ids[j] != ids[i])
      ensures pre[ids[n - 1] := responses[n - 1]][ids[i]] == responses[i]
    {
      if i < n - 1 {
        assert earlierIds[i] == ids[i] && earlier[i] == responses[i];
        forall j | i < j < n - 1 ensures earlierIds[j] != earlierIds[i] {
          assert earlierIds[j] == ids[j];
        }
      }
    }
  }

  /** A worked answer: device A of project P1 has a temperature reading 21.5
      at 100 and an event of an unknown type at 110, device B of P1 has a
      presence change to "NOT_PRESENT" at 105. The events come back sorted,
      the devices in the order A, B. The answer is P1 with A then B; A's
      series is ([100], [21.5]) and B's is ([105], [0.0]). */
  lemma EventsAnswerExample(a1: Event, a2: Event, b1: Event, da: Device, db: Device)
    requires a1.deviceId == "A" && a1.eventType == "temperature" && a1.data.temperature.value == 21.5 && a1.timestamp == 100
    requires a2.deviceId == "A" && a2.eventType == "unknown" && a2.timestamp == 110
    requires b1.deviceId == "B" && b1.eventType == "objectPresent" && b1.data.objectPresent.state == "NOT_PRESENT" && b1.timestamp == 105
    requires da.id == "A" && da.projectId == "P1" && db.id == "B" && db.projectId == "P1"
    ensures var g := Grouping.Group([da, db], Grouping.Bucket([a1, b1, a2]));
      && |g| == 1
      && g[0].project == Project("P1", "P1", "Org")
      && g[0].devices == [DeviceWithEvents(da, [a1, a2]), DeviceWithEvents(db, [b1])]
      && SeriesColumns(g[0].devices[0].events) == ([100], [21.5])
      && SeriesColumns(g[0].devices[1].events) == ([105], [0.0])
  {
    var m := Grouping.Bucket([a1, b1, a2]);
    ExampleBuckets(a1, a2, b1);
    ExampleGroup(da, db, m, [a1, a2], [b1]);
    ExampleSeries(a1, a2, b1);
  }

  lemma ExampleSeries(a1: Event, a2: Event, b1: Event)
    requires a1.eventType == "temperature" && a1.data.temperature.value == 21.5 && a1.timestamp == 100
    requires a2.eventType == "unknown"
    requires b1.eventType == "objectPresent" && b1.data.objectPresent.state == "NOT_PRESENT" && b1.timestamp == 105
    ensures SeriesColumns([a1, a2]) == ([100], [21.5])
    ensures SeriesColumns([b1]) == ([105], [0.0])
  {
    assert [a1, a2][1..] == [a2] && [a2][1..] == [] && [b1][1..] == [];
    assert SeriesColumns([]) == ([], []);
    assert ValueOf(a1) == Some(21.5) && ValueOf(a2).None? && ValueOf(b1) == Some(0.0);
    assert SeriesColumns([a2]) == ([], []);
    assert SeriesColumns([a1, a2]) == ([a1.timestamp] + [], [21.5] + []);
    assert SeriesColumns([b1]) == ([b1.timestamp] + [], [0.0] + []);
    assert [a1.timestamp] + [] == [100] && [21.5] + [] == [21.5];
    assert [b1.timestamp] + [] == [105] && [0.0] + [] == [0.0];
  }

  lemma ExampleBuckets(a1: Event, a2: Event, b1: Event)
    requires a1.deviceId == "A" && a2.deviceId == "A" && b1.deviceId == "B"
    ensures "A" in Grouping.Bucket([a1, b1, a2]) && Grouping.Bucket([a1, b1, a2])["A"] == [a1, a2]
    ensures "B" in Grouping.Bucket([a1, b1, a2]) && Grouping.Bucket([a1, b1, a2])["B"] == [b1]
  {
    var events := [a1, b1, a2];
    assert events[..2] == [a1, b1] && [a1, b1][..1] == [a1] && [a1][..0] == [];
    assert Grouping.EventsOf([a1], "A") == [a1];
    assert Grouping.EventsOf([a1, b1], "A") == [a1];
    assert Grouping.EventsOf(events, "A") == [a1, a2];
    assert Grouping.EventsOf([a1], "B") == [];
    assert Grouping.EventsOf([a1, b1], "B") == [b1];
    assert Grouping.EventsOf(events, "B") == [b1];
    assert "A" in Grouping.DeviceIdsOf(events) && "B" in Grouping.DeviceIdsOf(events);
  }

  lemma ExampleGroup(da: Device, db: Device, m: map<string, seq<Event>>, ea: seq<Event>, eb: seq<Event>)
    requires da.id == "A" && da.projectId == "P1" && db.id == "B" && db.projectId == "P1"
    requires "A" in m && m["A"] == ea && "B" in m && m["B"] == eb
    ensures Grouping.Group([da, db], m) == [ProjectWithDevices(Project("P1", "P1", "Org"), [DeviceWithEvents(da, ea), DeviceWithEvents(db, eb)])]
  {
    assert [da, db][..1] == [da] && [da][..0] == [];
    assert Grouping.Group([], m) == [];
    assert Grouping.FindProject([], "P1") == None;
    assert Grouping.Attach(da, m) == DeviceWithEvents(da, ea);
    assert Grouping.Attach(db, m) == DeviceWithEvents(db, eb);
    var p := ProjectWithDevices(Project("P1", "P1", "Org"), [DeviceWithEvents(da, ea)]);
    assert Grouping.Place([], da, m) == [p];
    assert Grouping.Group([da], m) == [p];
    assert Grouping.FindProject([p], "P1") == Some(0);
    assert Grouping.Group([da, db], m) == Grouping.Place(Grouping.Group([da], m), db, m);
    assert Grouping.Place([p], db, m) == [p.(devices := p.devices + [DeviceWithEvents(db, eb)])];
    assert p.devices + [DeviceWithEvents(db, eb)] == [DeviceWithEvents(da, ea), DeviceWithEvents(db, eb)];
  }
}
