/**
 The telemetry server's behaviour as functions on states, together with the
 operating system around it: open descriptors, what every connection received
 and was sent, and the global order in which complete lines were handled.
 */
module ServerSpec {
  import opened Text
  import opened Decimal
  import opened Fields
  import opened StatusCodec
  import opened StatusStore
  import MetricsCodec

  type ServerMetrics = MetricsCodec.ServerMetrics

  /** What a call to `send` does: a prefix is written, or nothing. */
  datatype SendResult = Written(count: nat) | WouldBlock | HardError

  /** A message offered to one connection, with its origin. */
  datatype Msg =
    | Ack(status: DeviceStatus, serverMs: u64)
    | Relay(source: nat, line: string)
    | Report(metrics: ServerMetrics)

  function AckPairs(status: DeviceStatus, serverMs: u64): seq<(string, string)> {
    [("device_id", status.deviceId), ("seq", ToString(status.sequence)), ("server_ms", ToString(serverMs))]
  }

  function AckText(status: DeviceStatus, serverMs: u64): string {
    "ACK" + Render(AckPairs(status, serverMs)) + "\n"
  }

  function Bytes(msg: Msg): string {
    match msg
    case Ack(status, serverMs) => AckText(status, serverMs)
    case Relay(_, line) => line
    case Report(metrics) => MetricsCodec.MetricsText(metrics)
  }

  datatype Attempt = Attempt(msg: Msg, result: SendResult)

  function Min(a: nat, b: nat): nat { if a <= b then a else b }

  /** The bytes an attempt put on the wire. */
  function Delivered(attempt: Attempt): string {
    match attempt.result
    case Written(count) => Bytes(attempt.msg)[..Min(count, |Bytes(attempt.msg)|)]
    case _ => ""
  }

  function DeliveredAll(sends: seq<Attempt>): string {
    if sends == [] then "" else DeliveredAll(sends[..|sends| - 1]) + Delivered(sends[|sends| - 1])
  }

  datatype Conn = Conn(received: string, sends: seq<Attempt>)

  /** One entry per thing the server did; connections are numbered in the order accepted and never reused. */
  datatype Entry =
    | Opened(conn: nat)
    | Line(conn: nat, line: string)
    | Closed(conn: nat)
    | Reported(metrics: ServerMetrics, fromMs: nat, toMs: nat)

  datatype World = World(
    ticks: nat,                    // clock readings taken
    descriptors: map<int, nat>,    // open descriptor -> connection number
    conns: map<nat, Conn>,
    trace: seq<Entry>)

  datatype Counters = Counters(
    startMs: nat,
    lastReportMs: nat,
    lastReportStatusReceived: nat,
    totalAccepted: nat,
    totalDisconnected: nat,
    statusReceived: nat,
    ackSent: nat,
    parseErrors: nat,
    broadcastErrors: nat)

  /** What handling a line may touch. */
  datatype Core = Core(store: map<string, DeviceStatus>, viewers: set<int>, counters: Counters, world: World)

  datatype State = State(core: Core, buffers: map<int, string>, telemetry: set<int>)

  /** Every choice of the operating system: clock readings, and the result of the k-th send on a connection. */
  datatype Env = Env(clock: nat -> u64, outcome: (nat, nat) -> SendResult)

  ghost predicate Monotone(env: Env) {
    forall i: nat, j: nat :: i <= j ==> env.clock(i) <= env.clock(j)
  }

  datatype Event =
    | Incoming(fds: seq<int>)
    | Readable(fd: int, chunks: seq<string>, stillOpen: bool)

  // ---- sending ----

  function ConnOf(w: World, fd: int): nat { if fd in w.descriptors then w.descriptors[fd] else 0 }

  function Outcome(env: Env, w: World, conn: nat): SendResult {
    env.outcome(conn, if conn in w.conns then |w.conns[conn].sends| else 0)
  }

  /** A descriptor that is not open cannot be written. */
  function SendOutcome(env: Env, w: World, fd: int): SendResult {
    if fd in w.descriptors then Outcome(env, w, w.descriptors[fd]) else HardError
  }

  lemma SomeDescriptor(fds: set<int>)
    requires fds != {}
    ensures exists fd :: fd in fds
  {
    if forall fd :: fd !in fds {
      assert false;
    }
  }

  function Targets(w: World, fds: set<int>): set<nat> {
    set fd | fd in fds && fd in w.descriptors :: w.descriptors[fd]
  }

  /** The same message attempted once on each of a set of descriptors. */
  function SendAll(env: Env, w: World, fds: set<int>, msg: Msg): World {
    w.(conns := map c | c in w.conns ::
         if c in Targets(w, fds) then w.conns[c].(sends := w.conns[c].sends + [Attempt(msg, Outcome(env, w, c))])
         else w.conns[c])
  }

  function Failures(env: Env, w: World, fds: set<int>): nat {
    |set fd | fd in fds && SendOutcome(env, w, fd).HardError?|
  }

  function Broadcast(env: Env, core: Core, source: int, msg: Msg): Core {
    var fds := core.viewers - {source};
    core.(world := SendAll(env, core.world, fds, msg),
          counters := core.counters.(broadcastErrors := core.counters.broadcastErrors + Failures(env, core.world, fds)))
  }

  function Acknowledge(env: Env, core: Core, fd: int, status: DeviceStatus): Core {
    var w := core.world;
    var written := if SendOutcome(env, w, fd).Written? then 1 else 0;
    core.(world := SendAll(env, w.(ticks := w.ticks + 1), {fd}, Ack(status, env.clock(w.ticks))),
          counters := core.counters.(ackSent := core.counters.ackSent + written))
  }

  // ---- handling one line ----

  predicate IsHello(line: string) { "HELLO " <= line }

  predicate IsViewerHello(line: string) { IsHello(line) && Contains(line, "role=viewer") }

  /** The status a line is accepted as; HELLO lines are never parsed. */
  function Accepted(line: string): Option<DeviceStatus> {
    if IsHello(line) then None else StatusOf(line)
  }

  function Note(core: Core, entry: Entry): Core {
    core.(world := core.world.(trace := core.world.trace + [entry]))
  }

  function Register(core: Core, fd: int, line: string): Core {
    if IsViewerHello(line) then core.(viewers := core.viewers + {fd}) else core
  }

  function Reject(core: Core): Core {
    core.(counters := core.counters.(parseErrors := core.counters.parseErrors + 1))
  }

  function Store(core: Core, status: DeviceStatus): Core {
    core.(store := core.store[status.deviceId := status],
          counters := core.counters.(statusReceived := core.counters.statusReceived + 1))
  }

  function Answer(env: Env, core: Core, fd: int, status: DeviceStatus): Core {
    if status.ackRequested then Acknowledge(env, core, fd, status) else core
  }

  function HandleLine(env: Env, core: Core, fd: int, line: string): Core {
    var conn := ConnOf(core.world, fd);
    var noted := Note(core, Line(conn, line));
    if IsHello(line) then Register(noted, fd, line)
    else
      match StatusOf(line)
      case None => Reject(noted)
      case Some(status) =>
        Broadcast(env, Answer(env, Store(noted, status), fd, status), fd, Relay(conn, line))
  }

  function HandleLines(env: Env, core: Core, fd: int, lines: seq<string>): Core {
    if lines == [] then core
    else HandleLine(env, HandleLines(env, core, fd, lines[..|lines| - 1]), fd, lines[|lines| - 1])
  }

  // ---- events ----

  function Accept(s: State, fd: int): State {
    var conn := s.core.counters.totalAccepted;
    var w := s.core.world;
    State(
      s.core.(
        counters := s.core.counters.(totalAccepted := conn + 1),
        world := w.(descriptors := w.descriptors[fd := conn],
                    conns := w.conns[conn := Conn("", [])],
                    trace := w.trace + [Opened(conn)])),
      if fd in s.buffers then s.buffers else s.buffers[fd := ""],
      s.telemetry + {fd})
  }

  function AcceptAll(s: State, fds: seq<int>): State {
    if fds == [] then s else Accept(AcceptAll(s, fds[..|fds| - 1]), fds[|fds| - 1])
  }

  function Receive(s: State, fd: int, data: string): State
    requires fd in s.buffers
  {
    var w := s.core.world;
    var conn := ConnOf(w, fd);
    s.(buffers := s.buffers[fd := s.buffers[fd] + data],
       core := s.core.(world := if conn in w.conns
                                then w.(conns := w.conns[conn := w.conns[conn].(received := w.conns[conn].received + data)])
                                else w))
  }

  /** Handle every complete line in a connection's buffer. */
  function Drain(env: Env, s: State, fd: int): State
    requires fd in s.buffers
  {
    s.(core := HandleLines(env, s.core, fd, Lines(s.buffers[fd])),
       buffers := s.buffers[fd := Rest(s.buffers[fd])])
  }

  function Disconnect(s: State, fd: int): State {
    var w := s.core.world;
    State(
      s.core.(
        viewers := s.core.viewers - {fd},
        counters := s.core.counters.(totalDisconnected := s.core.counters.totalDisconnected + 1),
        world := w.(descriptors := w.descriptors - {fd}, trace := w.trace + [Closed(ConnOf(w, fd))])),
      s.buffers - {fd},
      s.telemetry - {fd})
  }

  /** Closing a descriptor the server knows nothing about. */
  function Unregister(s: State, fd: int): State {
    s.(core := s.core.(world := s.core.world.(descriptors := s.core.world.descriptors - {fd})))
  }

  function Step(env: Env, s: State, event: Event): State {
    match event
    case Incoming(fds) => AcceptAll(s, fds)
    case Readable(fd, chunks, stillOpen) =>
      if fd !in s.buffers then Unregister(s, fd)
      else
        var drained := Drain(env, Receive(s, fd, Join(chunks)), fd);
        if stillOpen then drained else Disconnect(drained, fd)
  }

  // ---- reporting ----

  /** Messages per second over a window, truncated. */
  function Rate(messages: int, elapsedMs: int): int
    requires elapsedMs > 0
  {
    (messages as real * 1000.0 / elapsedMs as real).Floor
  }

  function Snapshot(c: Counters, active: nat, devices: nat, nowMs: nat): ServerMetrics {
    var elapsed := if nowMs - c.lastReportMs > 1 then nowMs - c.lastReportMs else 1;
    MetricsCodec.ServerMetrics(
      Wrap((nowMs - c.startMs) / 1000),
      Wrap(active),
      Wrap(c.totalAccepted),
      Wrap(c.totalDisconnected),
      Wrap(devices),
      Wrap(c.statusReceived),
      Wrap(c.ackSent),
      Wrap(c.parseErrors),
      Wrap(c.broadcastErrors),
      Wrap(Rate(c.statusReceived - c.lastReportStatusReceived, elapsed)))
  }

  function Tick(core: Core): Core {
    core.(world := core.world.(ticks := core.world.ticks + 1))
  }

  function Publish(env: Env, core: Core, active: nat, nowMs: nat): Core {
    var metrics := Snapshot(core.counters, active, |core.store|, nowMs);
    var noted := Note(core, Reported(metrics, core.counters.lastReportMs, nowMs));
    var sent := Broadcast(env, noted, -1, Report(metrics));
    sent.(counters := sent.counters.(lastReportMs := nowMs, lastReportStatusReceived := sent.counters.statusReceived))
  }

  function ReportIfDue(env: Env, s: State): State {
    var nowMs := env.clock(s.core.world.ticks);
    var ticked := Tick(s.core);
    if nowMs - s.core.counters.lastReportMs < 1000 then s.(core := ticked)
    else s.(core := Publish(env, ticked, |s.telemetry|, nowMs))
  }

  // ---- runs ----

  function Init(env: Env): State {
    var start := env.clock(0);
    State(
      Core(map[], {}, Counters(start, start, 0, 0, 0, 0, 0, 0, 0), World(1, map[], map[], [])),
      map[], {})
  }

  function Steps(env: Env, s: State, events: seq<Event>): State {
    if events == [] then s else Step(env, Steps(env, s, events[..|events| - 1]), events[|events| - 1])
  }

  function RunBatch(env: Env, s: State, events: seq<Event>): State {
    ReportIfDue(env, Steps(env, s, events))
  }

  function Run(env: Env, batches: seq<seq<Event>>): State {
    if batches == [] then Init(env)
    else RunBatch(env, Run(env, batches[..|batches| - 1]), batches[|batches| - 1])
  }

  // ---- what the operating system may do ----

  /** `accept` returns non-negative descriptors that are not open. */
  predicate FreshDescriptors(w: World, fds: seq<int>) {
    && (forall i :: 0 <= i < |fds| ==> fds[i] >= 0 && fds[i] !in w.descriptors)
    && (forall i, j :: 0 <= i < j < |fds| ==> fds[i] != fds[j])
  }

  /** An event the operating system can deliver in this state. */
  predicate Enabled(s: State, event: Event) {
    match event
    case Incoming(fds) => FreshDescriptors(s.core.world, fds)
    case Readable(fd, _, _) => fd in s.core.world.descriptors
  }

  /** `epoll_wait` reports distinct descriptors, all registered when it returned. */
  predicate ReadyTogether(w: World, events: seq<Event>) {
    && (forall i :: 0 <= i < |events| && events[i].Readable? ==> events[i].fd in w.descriptors)
    && (forall i, j :: 0 <= i < j < |events| && events[i].Readable? && events[j].Readable?
          ==> events[i].fd != events[j].fd)
  }

  /** `accept` obeys its rule at the moment each event of the batch is handled. */
  predicate AcceptsAreFresh(env: Env, s: State, events: seq<Event>) {
    forall i :: 0 <= i < |events| && events[i].Incoming? ==>
      FreshDescriptors(Steps(env, s, events[..i]).core.world, events[i].fds)
  }

  predicate PossibleBatch(env: Env, s: State, events: seq<Event>) {
    ReadyTogether(s.core.world, events) && AcceptsAreFresh(env, s, events)
  }

  ghost predicate PossibleRun(env: Env, batches: seq<seq<Event>>) {
    && Monotone(env)
    && forall i :: 0 <= i < |batches| ==> PossibleBatch(env, Run(env, batches[..i]), batches[i])
  }
}
