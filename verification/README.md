# Grafana datasource over a device-event store — Dafny model

This project models the backend of a Grafana datasource plugin. The plugin
reads IoT projects, devices and sensor events from a MongoDB database and
answers three kinds of panel query:

- a table of projects;
- a table of devices;
- time series of device events, nested project → device → events.

Each series frame can carry a live channel. The stream behind that channel
re-queries the device's recent events on every timer tick and sends one frame.

The modules follow the Go packages:

| module | models |
|---|---|
| `Types` | the records of `pkg/plugin/database/types.go` |
| `Filters` | the find documents sent to the `devices` and `events` collections, and what they select |
| `Grouping` | the in-memory half of `QueryEvents`: the per-device buckets, the device-id list, the regrouping into projects |
| `DatabaseWrapper` | `database_wrapper.go`: the connection flag, the not-connected guard, the three lookups and the cursor decoding |
| `Frames` | `frames.go`: the value an event plots as, and the frame of one device |
| `Plugin` | `plugin.go`: query dispatch and the three handlers |
| `Streaming` | `plugin.go`: subscribe, publish and the refresh loop of a running stream |
| `Sequences`, `Strings` | helpers: first-seen order and occurrence counts; Go's `strings.Split` for a one-character separator, and its inverse `Join` |

The model replaces the database with a `Store` value. A `Store` gives, for
each find document, either an error or a cursor. A cursor is a sequence of
per-document decode results. Two predicates, `HonoursEventQueries` and
`HonoursDeviceQueries`, describe a store that answers only records
satisfying the find, sorted when the find asks for it. Such a store may still
leave records out, so the soundness lemmas are stated against it, while the
completeness lemma is stated about the records the store did answer.

Timestamps are integer nanoseconds. Event values are `real`.

Three behaviours of the code that are easy to miss:

- **No short-circuit on zero events.** With no events, the device-id list is
  the empty string. The devices lookup still runs, with `_id $in [""]`.
  `FetchedDevicesHaveEvents` and `CsvRoundTrip` state this.
- **Stream windows overlap.** After a successful tick the next window starts
  at that tick's clock reading. The previous window ended one minute later,
  so successive windows overlap by one minute rather than not at all.
  `ConsecutiveTicks` and `WindowsChain` state this.
- **The projects lookup ignores its filter.** The lookup builds a project-id
  clause, but `Find` is then given `bson.D{{}}`, a document whose single
  element has an empty key, and that filters nothing. `QueryProjects`
  therefore has no filter argument.

## Model

| member | source | states |
|---|---|---|
| DatabaseWrapper.Close | pkg/plugin/database/database_wrapper.go:37-53 | Closing a handle that is not connected is a no-op without error. A successful disconnect clears the open flag. A failed disconnect keeps the handle open and returns the driver's error. The handle ends disconnected exactly when no error is returned. |
| DatabaseWrapper.DecodeAll | pkg/plugin/database/database_wrapper.go:153-162 | Reading a cursor succeeds exactly when every document decodes. The result is then the decoded records in cursor order. Otherwise the error is that of the first document that fails to decode. |
| DatabaseWrapper.Fetch | pkg/plugin/database/database_wrapper.go:128-151 | A lookup on a handle that is not connected fails with "not connected to any database". A store error is passed through. Otherwise the result is the decoded cursor. |
| DatabaseWrapper.QueryProjects | pkg/plugin/database/database_wrapper.go:87-120 | Guarded by the connection check. The result is the decoded answer to the unfiltered projects find, or the store's error. |
| DatabaseWrapper.QueryDevices | pkg/plugin/database/database_wrapper.go:126-165 | Guarded by the connection check. The find sent is built from the two optional comma-separated lists. The result is its decoded answer or the store's error. |
| DatabaseWrapper.BucketKeys | pkg/plugin/database/database_wrapper.go:223-228 | The enumeration of the bucket map's keys is duplicate-free. It holds exactly the device ids that have a bucket. |
| DatabaseWrapper.QueryEvents | pkg/plugin/database/database_wrapper.go:167-233 | Every error path returns its error. A handle that is not connected gives the not-connected error. An error from the events find is returned unchanged. So is the first decode error on the events cursor, and an error from the devices lookup. |
| DatabaseWrapper.QueryEventsComplete | pkg/plugin/database/database_wrapper.go:205-258 | A successful answer loses no event. Take any decoded event whose device id is that of a fetched device. It is listed in that device's entry, under the project whose id is the device's project id. |
| Grouping.Positions | pkg/plugin/database/database_wrapper.go:205-220 | The positions of one device's events in the cursor: strictly ascending, each holding an event of that device, and every such position included. |
| DatabaseWrapper.EventsOfIsSubsequence | pkg/plugin/database/database_wrapper.go:205-220 | A device's bucket is the cursor's events at that device's positions, taken in ascending order. So it holds every event of the device, once each, in cursor order, and nothing else. It is sorted by timestamp when the cursor is. |
| DatabaseWrapper.EventsOfSorted | pkg/plugin/database/database_wrapper.go:205-220 | Appending a sorted cursor's events to per-device lists keeps each list sorted by timestamp. |
| DatabaseWrapper.DecodedAnswer | pkg/plugin/database/database_wrapper.go:195-211 | Decoded events from a store that honours the find satisfy it. They are sorted by timestamp because the find asks for an ascending sort. |
| DatabaseWrapper.GroupFits | pkg/plugin/database/database_wrapper.go:235-258 | Regrouping matching, sorted events lists each device under its own project. Each device gets only its own events, still matching and sorted. |
| DatabaseWrapper.QueryEventsSound | pkg/plugin/database/database_wrapper.go:167-261 | Against a store that honours the events find, every project in a successful answer fits. Its devices belong to it. Each device carries only its own events, each in the id list, not network status, inside [from, to), oldest first. |
| DatabaseWrapper.FetchedDevicesHaveEvents | pkg/plugin/database/database_wrapper.go:222-241 | Assume a store that honours the devices find, and no device id containing a comma. Then every device in a successful answer has at least one event, unless its id is "" and the events cursor was empty. The id "" is what the empty device-id list asks for. |
| DatabaseWrapper.DevicesHaveBuckets | pkg/plugin/database/database_wrapper.go:230-241 | Every device that matches the device-id list and is regrouped with the buckets gets a non-empty bucket. The only exception is a device with id "" when there were no events. |
| DatabaseWrapper.DeviceHasBucket | pkg/plugin/database/database_wrapper.go:223-240 | A device whose id is on the split device-id list has a non-empty bucket, unless the list was empty and the id is "". |
| Filters.BuildEventQuery | pkg/plugin/database/database_wrapper.go:175-197 | An event matches the events find iff three things hold: its device id (dimension "devices") or project id (any other dimension) is one of the comma-separated values; its type is not "networkStatus"; and from <= timestamp < to. The cursor is sorted ascending. |
| Filters.BuildDeviceQuery | pkg/plugin/database/database_wrapper.go:133-145 | A device matches iff each list that is present contains the device's id. An absent list does not restrict. The empty list string matches only the id "". |
| Filters.Select | pkg/plugin/database/database_wrapper.go:182-199 | Every selected event is stored and matches the find. Every stored event that matches is selected. |
| Filters.SelectCounts | pkg/plugin/database/database_wrapper.go:182-199 | A matching event is selected as many times as it is stored. Any other event is not selected. |
| Filters.SelectConcat | pkg/plugin/database/database_wrapper.go:182-199 | Selection keeps the stored order: the selection from two runs of stored events is the selection from the first run followed by that from the second. |
| Filters.AdjacentWindows | pkg/plugin/database/database_wrapper.go:189-192 | Because the window is half-open, [t0, t1) and [t1, t2) together select the same multiset as [t0, t2). No event is selected by both. |
| Grouping.EventsOf | pkg/plugin/database/database_wrapper.go:213-219 | A device's bucket holds only that device's events. It is empty iff no event carries the id. |
| Grouping.Bucket | pkg/plugin/database/database_wrapper.go:205-220 | The bucket map has a key for exactly the device ids that occur. Each key maps to that device's events in cursor order. |
| Grouping.BucketPartitions | pkg/plugin/database/database_wrapper.go:205-220 | Every event lies in its own device's bucket. No bucket is empty. A bucket holds only its own device's events. |
| Grouping.EventInOwnBucket | pkg/plugin/database/database_wrapper.go:213-219 | Each event is appended to the list of its own device id. |
| Grouping.BucketSizesSum | pkg/plugin/database/database_wrapper.go:205-228 | Over any duplicate-free enumeration of the bucket keys, in whatever order the map is walked, the bucket lengths add up to the number of events. No event is lost or duplicated. |
| Grouping.CsvIsJoin | pkg/plugin/database/database_wrapper.go:223-228 | The separator-then-key loop builds the keys joined by commas. |
| Grouping.CsvRoundTrip | pkg/plugin/database/database_wrapper.go:223-230 | When no key contains a comma, splitting the device-id list at commas gives back the keys, in order. With no keys it gives the single id "". |
| Grouping.FindProject | pkg/plugin/database/database_wrapper.go:243 | The project lookup finds an index holding that project id, or reports that none does. |
| Grouping.DevicesIn | pkg/plugin/database/database_wrapper.go:237-257 | A project's device list holds exactly the fetched devices of that project, each with its bucket. It is empty for a project id that no device has. |
| Grouping.GroupShape | pkg/plugin/database/database_wrapper.go:235-258 | The regrouping lists projects in first-seen order of the devices' project ids, without repeats. Each project is the placeholder record (id and display name the project id, organisation "Org"). Its devices are those of that project in fetch order, each with its bucket. |
| Grouping.GroupPlacesEachDeviceOnce | pkg/plugin/database/database_wrapper.go:235-258 | The projects list as many devices as were fetched. A device sits in project j iff its project id is j's. Every device's project appears. |
| Grouping.GroupedEventsAreBuckets | pkg/plugin/database/database_wrapper.go:238-241 | Every listed device carries exactly the events of its bucket, and none when it has no bucket. |
| Frames.ValueOf | pkg/plugin/frames.go:9-22 | A temperature event plots its reading. A presence event plots 0 for "NOT_PRESENT" and 1 otherwise. Every other type is skipped. |
| Frames.Plotted | pkg/plugin/frames.go:30-38 | The plotted events are exactly the non-skipped ones. |
| Frames.SeriesColumns | pkg/plugin/frames.go:27-38 | The time and value columns have equal length, one row per plotted event. Row i holds the i-th plotted event's timestamp and value. |
| Frames.DeviceToFrame | pkg/plugin/frames.go:24-47 | The frame is named by the project id. It has a "Value" field labelled device=<name> and a "Time" field, row-aligned with the plotted events. |
| Plugin.HandleProjectsQuery | pkg/plugin/plugin.go:113-143 | On success, one frame "response" with id and name columns, row i from project i. Otherwise the lookup's error. |
| Plugin.DevicesQueryFilter | pkg/plugin/plugin.go:145-156 | The devices table restricts project ids iff the "projects" parameter is present. It never restricts device ids. |
| Plugin.HandleDevicesQuery | pkg/plugin/plugin.go:145-189 | On success, one frame "response" with id, name, project_id and type columns, row i from device i. Otherwise the lookup's error. |
| Plugin.ExtractFilter | pkg/plugin/plugin.go:200-206 | The dimension is the "filter" parameter, or "" when missing. The value is the parameter named by the dimension, or "" when missing. |
| Plugin.MissingFilterMatchesEmptyProjectId | pkg/plugin/plugin.go:200-208 | Suppose there is no "filter" parameter and no parameter named "". Then an events query can only match events whose project id is "". |
| Plugin.Pairs | pkg/plugin/plugin.go:214-215 | The nested walk visits as many (project, device) pairs as the projects list devices. |
| Plugin.DeviceFrames | pkg/plugin/plugin.go:215-230 | One frame per device of a project, in order. |
| Plugin.EventFrames | pkg/plugin/plugin.go:214-230 | Frame i is the frame of the i-th (project, device) pair in nested order. |
| Plugin.EventFrameContents | pkg/plugin/plugin.go:214-230 | Frame i is named by its project. It carries the channel (scope "ds", the datasource uid, "stream/device/<device id>") iff streaming was asked, and otherwise holds the device frame's fields. |
| Plugin.HandleEventsQuery | pkg/plugin/plugin.go:191-232 | The lookup's error, or one frame per listed device. |
| Plugin.HandleQuery | pkg/plugin/plugin.go:80-103 | A decode error is the response. Otherwise the handler is chosen by entity, with "unknown entity '<entity>'" for any other entity. |
| Plugin.QueryData | pkg/plugin/plugin.go:72-111 | The response map has exactly the batch's ref ids as keys. Each holds the response of the last query with that ref id. |
| Plugin.KeyedByRef | pkg/plugin/plugin.go:79-107 | Storing each response under its ref id in turn leaves exactly the ref ids as keys. A later response overwrites an earlier one with the same ref id. |
| Plugin.EventsAnswerExample | pkg/plugin/database/database_wrapper.go:205-258 | Worked answer: A (21.5 at 100, unknown type at 110) and B ("NOT_PRESENT" at 105), both of P1, give P1 with A then B. A's series is ([100], [21.5]) and B's is ([105], [0.0]). |
| Streaming.SubscribeStream | pkg/plugin/plugin.go:255-272 | Accepted iff the path splits into "stream", "device", <id>. Not found for a three-part "stream" path with another middle part. Refused otherwise. |
| Streaming.ChannelPathSubscribable | pkg/plugin/plugin.go:219-223 | A device's channel path is accepted for subscription iff the device id contains no "/". |
| Streaming.PublishStream | pkg/plugin/plugin.go:325-332 | Publishing is always refused. |
| Streaming.StartStream | pkg/plugin/plugin.go:279-281 | A stream starts on the path's third part, with its window start at the current clock reading. It has no device when the path has fewer than three parts. |
| Streaming.LastFrame | pkg/plugin/plugin.go:306-311 | The frame sent is that of the last (project, device) pair in nested order. It is nil when no device was found. |
| Streaming.ScanDevices | pkg/plugin/plugin.go:308-310 | The inner loop leaves the frame of the project's last device, or the previous frame when the project has no devices. |
| Streaming.ScanProjects | pkg/plugin/plugin.go:307-311 | The outer loop leaves the frame of the last pair overall, or the initial frame when there is none. |
| Streaming.Step | pkg/plugin/plugin.go:286-320 | A cancel ends the stream without a lookup or a send. A timer tick looks up the device over [window start, now + 1 minute). A failed lookup sends nothing. Otherwise the last frame is sent. The window start moves to the tick's time only when both lookup and send succeed. |
| Streaming.Settle | pkg/plugin/plugin.go:301-319 | Given the lookup's answer: a failed lookup sends nothing and keeps the window start. A successful one sends the last frame. The window start moves to the tick's time only when the send also succeeds. |
| Streaming.Run | pkg/plugin/plugin.go:285-322 | Each tick starts from the session the previous tick left. The run stops right after a cancel, and only there. |
| Streaming.CancelledBeforeFirstTick | pkg/plugin/plugin.go:287-290 | A stream cancelled before its first timer tick makes no lookup and sends nothing. |
| Streaming.ConsecutiveTicks | pkg/plugin/plugin.go:294-319 | After a tick that fetched and sent, the next window starts at that tick's time, one minute before the previous window's end. After a failure it starts where the previous window started. |
| Streaming.WindowsChain | pkg/plugin/plugin.go:285-322 | In a run, every two consecutive timer ticks chain their windows as in ConsecutiveTicks. |
| Strings.Split | pkg/plugin/database/database_wrapper.go:184 | Splitting at a one-character separator gives one more part than there are separators. No part contains the separator. |
| Strings.SplitJoin | pkg/plugin/database/database_wrapper.go:223-230 | Split inverts Join for a non-empty list of parts without the separator. |
| Strings.JoinSplit | pkg/plugin/database/database_wrapper.go:184 | Join inverts Split. |

## Left out

- The MongoDB driver: Connect, Find, the cursor protocol, Disconnect and the `serverStatus` command are replaced by the `Store` parameter and the disconnect outcome of `Close`.
- `TestConnection`, `CheckHealth`, `NewSampleDatasource` and `Dispose`: connection set-up and health reporting are driver I/O.
- `toBsonArray`: it copies the id list unchanged into a BSON array, so the model keeps the list.
- The project-id clause that `queryProjects` builds: it is never sent, so it changes nothing.
- The order of a Go map walk. The model enumerates bucket keys in first-seen order. `BucketSizesSum` holds for every enumeration, and `CsvRoundTrip` holds for every key sequence.
- Timestamps: RFC 3339 strings and `time.Time` become integer nanoseconds. The store's string comparison of formatted timestamps is taken to agree with the numeric order.
- `float64` becomes `real`. NaN and rounding are not modelled.
- Grafana SDK types (`data.Frame`, `data.Field`, `live.Channel`, the response structs) become plain records. The channel is kept as its three parts, not its string form.
- JSON decoding of a query's model is a parameter: each query arrives decoded or with the decoder's error. The datasource uid is a parameter too.
- The timer, `select`, the context and the five-second period of `RunStream` are not modelled. The clock and the sender's result arrive with each `Tick`.
- Streaming.StartStream: a path with fewer than three parts makes the Go code index out of range. The model returns None instead of modelling the crash.
- Logging and the `recover` in `handleEventsQuery` are left out, since no modelled step can fail in a way that would trigger the recover.
- The `fields` parameter of a devices query is read and ignored by the source, so it is not modelled.
- The TypeScript query and config editors are outside the backend.
- DatabaseWrapper.QueryEvents: its own contract covers only the error paths. The success path is stated by `QueryEventsSound` and `QueryEventsComplete`.
- Filters.AdjacentWindows: it is stated about a list of stored events and `Select`. A `Store` is not required to answer with `Select`, so the window property is not carried over to `QueryEvents`.
- Plugin.HandleEventsQuery: its contract states the frame count. The frame contents are stated by `EventFrames` and `EventFrameContents`.
