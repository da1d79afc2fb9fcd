/** Series projection: the value an event plots as, and the two-column frame
    built from one device's events. */
module Frames {

  import opened Types

  const TemperatureType := "temperature"
  const ObjectPresentType := "objectPresent"
  const NotPresentState := "NOT_PRESENT"

  /** A column of a frame. */
  datatype Column = Times(times: seq<Instant>) | Numbers(numbers: seq<real>) | Texts(texts: seq<string>)

  datatype Field = Field(name: string, labels: map<string, string>, column: Column)

  /** A live channel address: scope, namespace and path. */
  datatype Channel = Channel(scope: string, namespace: string, path: string)

  /** A frame; the channel is the one set in the frame's metadata, if any. */
  datatype Frame = Frame(name: string, fields: seq<Field>, channel: Option<Channel>)

  /** The value an event is plotted as, or None when it is skipped. A
      temperature event plots its reading; a presence event plots 0 for the
      state "NOT_PRESENT" and 1 for any other state; every other event type,
      network status and unknown types alike, is skipped. */
  function ValueOf(e: Event): (r: Option<real>)
    ensures e.eventType == TemperatureType ==> r == Some(e.data.temperature.value)
    ensures e.eventType == ObjectPresentType ==> r == Some(if e.data.objectPresent.state == NotPresentState then 0.0 else 1.0)
    ensures r.None? <==> e.eventType != TemperatureType && e.eventType != ObjectPresentType
  {
    if e.eventType == TemperatureType then Some(e.data.temperature.value)
    else if e.eventType == ObjectPresentType then
      if e.data.objectPresent.state == NotPresentState then Some(0.0) else Some(1.0)
    else None
  }

  /** The events that are not skipped, in input order. */
  function Plotted(events: seq<Event>): (r: seq<Event>)
    ensures forall i :: 0 <= i < |r| ==> r[i] in events && ValueOf(r[i]).Some?
    ensures forall i :: 0 <= i < |events| && ValueOf(events[i]).Some? ==> events[i] in r
    decreases |events|
  {
    if |events| == 0 then []
    else
      assert events == [events[0]] + events[1..];
      var rest := Plotted(events[1..]);
      if ValueOf(events[0]).Some? then [events[0]] + rest else rest
  }

  /** The time and value columns of a series: always of equal length, one
      row per plotted event, row i holding the timestamp and value of the
      i-th plotted event. */
  function SeriesColumns(events: seq<Event>): (r: (seq<Instant>, seq<real>))
    ensures |r.0| == |r.1| == |Plotted(events)|
    ensures forall i :: 0 <= i < |r.0| ==>
      r.0[i] == Plotted(events)[i].timestamp && ValueOf(Plotted(events)[i]) == Some(r.1[i])
    decreases |events|
  {
    if |events| == 0 then ([], [])
    else
      var rest := SeriesColumns(events[1..]);
      match ValueOf(events[0])
      case None => rest
      case Some(v) => ([events[0].timestamp] + rest.0, [v] + rest.1)
  }

  /** The frame of one device: named by the project's id, a "Value" field
      labelled with the device's name and a "Time" field, row-aligned. A
      device with nothing to plot still gets a frame, with empty columns. */
  function DeviceToFrame(project: Project, device: DeviceWithEvents): (f: Frame)
    ensures f.name == project.id && f.channel.None?
    ensures |f.fields| == 2
    ensures f.fields[0].name == "Value" && f.fields[0].labels == map["device" := device.device.labels.name]
    ensures f.fields[1].name == "Time" && f.fields[1].labels == map[]
    ensures f.fields[0].column.Numbers? && f.fields[1].column.Times?
    ensures |f.fields[0].column.numbers| == |f.fields[1].column.times| == |Plotted(device.events)|
    ensures forall i :: 0 <= i < |Plotted(device.events)| ==>
      && f.fields[1].column.times[i] == Plotted(device.events)[i].timestamp
      && ValueOf(Plotted(device.events)[i]) == Some(f.fields[0].column.numbers[i])
  {
    var columns := SeriesColumns(device.events);
    Frame(project.id,
          [Field("Value", map["device" := device.device.labels.name], Numbers(columns.1)),
           Field("Time", map[], Times(columns.0))],
          None)
  }
}
