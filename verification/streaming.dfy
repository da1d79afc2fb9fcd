/** The live stream of one device: which channel paths may be subscribed to,
    publishing (always refused), and the periodic refresh of a running stream
    as a step function over tick outcomes. The timer and the cancellation
    signal are not modelled; each tick arrives as a Tick value carrying the
    clock reading, the store's state and the sender's outcome. */
module Streaming {

  import opened Types
  import opened Frames
  import opened DatabaseWrapper
  import opened Plugin
  import Strings

  /** One minute in nanoseconds: how far past the tick each window reaches. */
  const Minute: int := 60_000_000_000

  datatype SubscribeStatus = SubscribeOk | SubscribeNotFound | SubscribePermissionDenied

  datatype PublishStatus = PublishOk | PublishNotFound | PublishPermissionDenied

  function PathParts(path: string): seq<string>
  {
    Strings.Split(path, '/')
  }

  /** A subscription is accepted for a path of three parts "stream",
      "device" and an id; a three-part "stream" path with another second part
      is not found; anything else is refused. */
  function SubscribeStream(path: string): (r: SubscribeStatus)
    ensures r == SubscribeOk <==>
      |PathParts(path)| == 3 && PathParts(path)[0] == "stream" && PathParts(path)[1] == "device"
    ensures r == SubscribeNotFound <==>
      |PathParts(path)| == 3 && PathParts(path)[0] == "stream" && PathParts(path)[1] != "device"
    ensures r == SubscribePermissionDenied <==> !(|PathParts(path)| == 3 && PathParts(path)[0] == "stream")
  {
    var parts := PathParts(path);
    if |parts| == 3 && parts[0] == "stream" then
      if parts[1] == "device" then SubscribeOk else SubscribeNotFound
    else SubscribePermissionDenied
  }

  /** The channel path the events answer attaches to a device is accepted
      for subscription exactly when the device id holds no "/". */
  lemma {:induction false} ChannelPathSubscribable(deviceId: string)
    ensures SubscribeStream(ChannelPath(deviceId)) == SubscribeOk <==> '/' !in deviceId
  {
    var parts := PathParts(ChannelPath(deviceId));
    ChannelPathParts(deviceId);
    if '/' !in deviceId {
      Strings.SplitWithoutSeparator(deviceId, '/');
      assert parts == ["stream", "device", deviceId];
    } else {
      assert |Strings.Split(deviceId, '/')| > 1;
      assert |parts| > 3;
    }
  }

  /** A channel path splits into "stream", "device" and the pieces of the id. */
  lemma ChannelPathParts(deviceId: string)
    ensures PathParts(ChannelPath(deviceId)) == ["stream", "device"] + Strings.Split(deviceId, '/')
  {
    ChannelPathShape(deviceId);
    SlashFreeWords();
    Strings.SplitTwoPieces("stream", "device", deviceId, '/');
  }

  lemma ChannelPathShape(deviceId: string)
    ensures ChannelPath(deviceId) == "stream" + ['/'] + ("device" + ['/'] + deviceId)
  {
    assert "stream/device/" == "stream" + ['/'] + "device" + ['/'];
  }

  lemma SlashFreeWords()
    ensures '/' !in "stream" && '/' !in "device"
  {
  }

  /** Publishing to a stream is refused whatever the path. */
  function PublishStream(path: string): (r: PublishStatus)
    ensures r == PublishPermissionDenied
  {
    PublishPermissionDenied
  }

  /** A running stream: its device, the start of the next window, and
      whether it has been cancelled. */
  datatype Session = Session(deviceId: string, lastFetch: Instant, cancelled: bool)

  /** Starting a stream at a clock reading: the device id is the path's third
      part. A path with fewer than three parts has none, and the source fails
      there (an index out of range); the model answers None. */
  function StartStream(path: string, now: Instant): (r: Option<Session>)
    ensures r.Some? <==> |PathParts(path)| >= 3
    ensures r.Some? ==> r.value == Session(PathParts(path)[2], now, false)
  {
    var parts := PathParts(path);
    if |parts| >= 3 then Some(Session(parts[2], now, false)) else None
  }

  /** The filter of every refresh: the stream's own device. */
  function StreamFilter(deviceId: string): Filter
  {
    Filter("devices", deviceId)
  }

  /** A tick: the cancellation signal, or the timer firing at a clock
      reading with the store as it is then and the sender's answer (an error
      message or none). */
  datatype Tick = Cancel | Timer(now: Instant, store: Store, sendError: Option<string>)

  datatype EventsRequest = EventsRequest(filter: Filter, window: TimeRange)

  /** What one tick did: the session afterwards, the events lookup it made,
      and the frame it handed to the sender (None for a nil frame). */
  datatype TickReport = TickReport(after: Session, request: Option<EventsRequest>, sent: Option<Option<Frame>>)

  /** The frame of the last device in nested order, kept by a loop that
      overwrites one variable for every device of every project. */
  function LastFrame(ps: seq<ProjectWithDevices>): (r: Option<Frame>)
    ensures r.None? <==> |Pairs(ps)| == 0
    ensures r.Some? ==> r.value == DeviceToFrame(Pairs(ps)[|Pairs(ps)| - 1].0, Pairs(ps)[|Pairs(ps)| - 1].1)
  {
    ScanProjects(ps, None)
  }

  function ScanProjects(ps: seq<ProjectWithDevices>, frame: Option<Frame>): (r: Option<Frame>)
    ensures |Pairs(ps)| == 0 ==> r == frame
    ensures |Pairs(ps)| > 0 ==> r == Some(DeviceToFrame(Pairs(ps)[|Pairs(ps)| - 1].0, Pairs(ps)[|Pairs(ps)| - 1].1))
    decreases |ps|
  {
    if |ps| == 0 then frame
    else
      PairsLast(ps);
      ScanProjects(ps[1..], ScanDevices(ps[0].project, ps[0].devices, frame))
  }

  /** The last pair of a projects list is the last pair of its tail, or else
      the last device of its first project. */
  lemma PairsLast(ps: seq<ProjectWithDevices>)
    requires |ps| > 0
    ensures |Pairs(ps)| == |ps[0].devices| + |Pairs(ps[1..])|
    ensures |Pairs(ps[1..])| > 0 ==> Pairs(ps)[|Pairs(ps)| - 1] == Pairs(ps[1..])[|Pairs(ps[1..])| - 1]
    ensures |Pairs(ps[1..])| == 0 && |ps[0].devices| > 0 ==>
      Pairs(ps)[|Pairs(ps)| - 1] == (ps[0].project, ps[0].devices[|ps[0].devices| - 1])
  {
    var own := seq(|ps[0].devices|, k requires 0 <= k < |ps[0].devices| => (ps[0].project, ps[0].devices[k]));
    assert Pairs(ps) == own + Pairs(ps[1..]);
  }

  function ScanDevices(project: Project, devices: seq<DeviceWithEvents>, frame: Option<Frame>): (r: Option<Frame>)
    ensures |devices| == 0 ==> r == frame
    ensures |devices| > 0 ==> r == Some(DeviceToFrame(project, devices[|devices| - 1]))
    decreases |devices|
  {
    if |devices| == 0 then frame
    else ScanDevices(project, devices[1..], Some(DeviceToFrame(project, devices[0])))
  }

  /** Whether a timer tick both fetched and sent. */
  predicate Succeeded(db: Option<Database>, s: Session, now: Instant, store: Store, sendError: Option<string>)
  {
    QueryEvents(db, store, StreamFilter(s.deviceId), TimeRange(s.lastFetch, now + Minute)).Ok? && sendError.None?
  }

  /** The lookup a timer tick makes. */
  function TickRequest(s: Session, now: Instant): EventsRequest
  {
    EventsRequest(StreamFilter(s.deviceId), TimeRange(s.lastFetch, now + Minute))
  }

  /** One tick of a running stream. Cancellation ends the stream with no
      lookup and no send. A timer tick looks up the stream's device over
      [lastFetch, now + one minute); a failed lookup skips the send; the
      frame of the last device found (nil if none) is sent; the window start
      moves to the tick's clock reading only when both the lookup and the
      send succeeded. */
  function Step(db: Option<Database>, s: Session, t: Tick): (r: TickReport)
    requires !s.cancelled
    ensures t.Cancel? ==> r.after == s.(cancelled := true) && r.request.None? && r.sent.None?
    ensures t.Timer? ==>
      && r.request == Some(TickRequest(s, t.now))
      && r.after.deviceId == s.deviceId && !r.after.cancelled
      && r.after.lastFetch == (if Succeeded(db, s, t.now, t.store, t.sendError) then t.now else s.lastFetch)
    ensures t.Timer? ==>
      var answer := QueryEvents(db, t.store, StreamFilter(s.deviceId), TimeRange(s.lastFetch, t.now + Minute));
      && (r.sent.Some? <==> answer.Ok?)
      && (answer.Ok? ==> r.sent.value == LastFrame(answer.value))
  {
    if t.Cancel? then TickReport(s.(cancelled := true), None, None)
    else Settle(s, t.now, TickRequest(s, t.now), QueryEvents(db, t.store, StreamFilter(s.deviceId), TimeRange(s.lastFetch, t.now + Minute)), t.sendError)
  }

  /** The rest of a timer tick, given the lookup's answer and the sender's. */
  function Settle(s: Session, now: Instant, request: EventsRequest, answer: Result<seq<ProjectWithDevices>>, sendError: Option<string>): (r: TickReport)
    requires !s.cancelled
    ensures r.request == Some(request)
    ensures r.after.deviceId == s.deviceId && !r.after.cancelled
    ensures r.after.lastFetch == (if answer.Ok? && sendError.None? then now else s.lastFetch)
    ensures r.sent.Some? <==> answer.Ok?
    ensures answer.Ok? ==> r.sent.value == LastFrame(answer.value)
  {
    match answer
    case Err(_) => TickReport(s, Some(request), None)
    case Ok(ps) =>
      var frame := LastFrame(ps);
      if sendError.Some? then TickReport(s, Some(request), Some(frame))
      else TickReport(s.(lastFetch := now), Some(request), Some(frame))
  }

  /** The ticks of a stream until it is cancelled or the ticks run out:
      each tick starts from the session the previous one left, and the run
      stops right after a cancellation. */
  function Run(db: Option<Database>, s: Session, ticks: seq<Tick>): (r: seq<TickReport>)
    ensures |r| <= |ticks|
    ensures s.cancelled ==> r == []
    ensures !s.cancelled && |ticks| > 0 ==> |r| > 0 && r[0] == Step(db, s, ticks[0])
    ensures forall k :: 0 <= k < |r| - 1 ==> !r[k].after.cancelled && r[k + 1] == Step(db, r[k].after, ticks[k + 1])
    ensures forall k :: 0 <= k < |r| ==> (r[k].after.cancelled <==> ticks[k].Cancel?)
    ensures !s.cancelled && |r| < |ticks| ==> |r| > 0 && ticks[|r| - 1].Cancel?
    decreases |ticks|
  {
    if |ticks| == 0 || s.cancelled then []
    else
      var first := Step(db, s, ticks[0]);
      [first] + Run(db, first.after, ticks[1..])
  }

  /** Cancelled before the first timer tick, a stream makes no lookup and
      sends nothing. */
  lemma CancelledBeforeFirstTick(db: Option<Database>, s: Session, ticks: seq<Tick>)
    requires !s.cancelled && |ticks| > 0 && ticks[0].Cancel?
    ensures |Run(db, s, ticks)| == 1
    ensures Run(db, s, ticks)[0].sent.None? && Run(db, s, ticks)[0].request.None?
  {
    assert Run(db, s, ticks)[0].after.cancelled;
  }

  /** Two timer ticks in a row: the later window starts where the earlier
      tick left the cursor. After a tick that fetched and sent, that is the
      earlier tick's clock reading, one minute before the earlier window's
      end, so the windows overlap by a minute and leave no gap; after a
      failed lookup or send it is the earlier window's own start, so the
      range not delivered is asked for again. */
  lemma ConsecutiveTicks(db: Option<Database>, s: Session, t1: Tick, t2: Tick)
    requires !s.cancelled && t1.Timer? && t2.Timer?
    ensures var r1 := Step(db, s, t1);
      var r2 := Step(db, r1.after, t2);
      && r1.request.Some? && r2.request.Some?
      && r2.request.value.window.to == t2.now + Minute
      && (r1.sent.Some? && t1.sendError.None? ==>
           r2.request.value.window.from == t1.now && r2.request.value.window.from + Minute == r1.request.value.window.to)
      && (r1.sent.None? || t1.sendError.Some? ==> r2.request.value.window.from == r1.request.value.window.from)
  {
  }

  /** In a run, consecutive timer ticks chain their windows as in
      ConsecutiveTicks. */
  lemma WindowsChain(db: Option<Database>, s: Session, ticks: seq<Tick>, k: nat)
    requires k + 1 < |Run(db, s, ticks)|
    requires ticks[k].Timer? && ticks[k + 1].Timer?
    ensures var r := Run(db, s, ticks);
      && r[k].request.Some? && r[k + 1].request.Some?
      && (r[k].sent.Some? && ticks[k].sendError.None? ==>
           r[k + 1].request.value.window.from == ticks[k].now && r[k + 1].request.value.window.from + Minute == r[k].request.value.window.to)
      && (r[k].sent.None? || ticks[k].sendError.Some? ==> r[k + 1].request.value.window.from == r[k].request.value.window.from)
  {
    var r := Run(db, s, ticks);
    if k == 0 {
      ConsecutiveTicks(db, s, ticks[0], ticks[1]);
    } else {
      assert r[k] == Step(db, r[k - 1].after, ticks[k]);
      ConsecutiveTicks(db, r[k - 1].after, ticks[k], ticks[k + 1]);
    }
  }
}
