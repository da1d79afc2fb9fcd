/** Records of the datasource backend: the three collections of the document
    store (projects, devices, events), the nested views the backend builds from
    them, the query filter, the time window and the connection handle. */
module Types {

  datatype Option<+T> = None | Some(value: T)

  /** The outcome of a fallible operation; a failure carries the error message. */
  datatype Result<+T> = Ok(value: T) | Err(error: string)

  /** An absolute instant in nanoseconds. The store compares timestamps as
      RFC 3339 strings; the model compares instants as integers. */
  type Instant = int

  /** A 32-bit signed integer, the declared width of the network-status fields. */
  type Int32 = x: int | -0x8000_0000 <= x < 0x8000_0000

  /** Which dimension to constrain ("projects" or "devices") and a
      comma-separated list of the ids to keep. */
  datatype Filter = Filter(entity: string, value: string)

  /** The half-open window [from, to). */
  datatype TimeRange = TimeRange(from: Instant, to: Instant)

  datatype Project = Project(id: string, displayName: string, organizationName: string)

  datatype Labels = Labels(name: string)

  /** A device names exactly one owning project; that id is not checked
      against the projects collection. */
  datatype Device = Device(id: string, labels: Labels, projectId: string, deviceType: string, lastEventTime: Instant)

  datatype Temperature = Temperature(value: real)

  datatype ObjectPresent = ObjectPresent(state: string)

  datatype CloudConnector = CloudConnector(id: string)

  datatype NetworkStatus = NetworkStatus(signalStrength: Int32, rssi: Int32, cloudConnectors: seq<CloudConnector>)

  /** All three payloads are present at once; the event's type only selects
      which one is read. */
  datatype EventData = EventData(temperature: Temperature, objectPresent: ObjectPresent, networkStatus: NetworkStatus)

  /** An event carries one device id and, denormalised, one project id. */
  datatype Event = Event(id: string, deviceId: string, projectId: string, eventType: string, timestamp: Instant, data: EventData)

  datatype DeviceWithEvents = DeviceWithEvents(device: Device, events: seq<Event>)

  datatype ProjectWithDevices = ProjectWithDevices(project: Project, devices: seq<DeviceWithEvents>)

  /** The connection handle. Only its open flag is modelled; the driver
      client it wraps is not. */
  datatype Database = Database(open: bool)
}
