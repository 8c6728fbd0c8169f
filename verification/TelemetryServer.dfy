/**
 The event loop as written: three collections, a store and counters updated in
 place by nested loops. Every method is proved against the functions of
 ServerSpec, so everything proved about runs holds of this object.
 */
module TelemetryServer {
  import opened Text
  import opened Decimal
  import opened Fields
  import opened StatusCodec
  import opened StatusStore
  import opened ServerSpec
  import opened ServerInvariant
  import opened ServerReports
  import opened ServerRuns
  import opened ServerBytes
  import opened ServerTheorems
  import MetricsCodec

  class Server {
    const env: Env
    const statusStore: DeviceStatusStore
    var clientBuffers: map<int, string>
    var telemetryClientFds: set<int>
    var viewerClientFds: set<int>
    var counters: Counters
    var world: World  // the operating system's side, and the record of what happened

    ghost function CoreView(): Core
      reads this, statusStore
    {
      Core(statusStore.statusesById, viewerClientFds, counters, world)
    }

    ghost function View(): State
      reads this, statusStore
    {
      State(CoreView(), clientBuffers, telemetryClientFds)
    }

    constructor (env: Env)
      ensures this.env == env && View() == Init(env) && fresh(statusStore)
    {
      this.env := env;
      statusStore := new DeviceStatusStore();
      clientBuffers, telemetryClientFds, viewerClientFds := map[], {}, {};
      var start := env.clock(0);
      counters := Counters(start, start, 0, 0, 0, 0, 0, 0, 0);
      world := World(1, map[], map[], []);
    }

    // ---- system calls ----

    method NowMs() returns (ms: u64)
      modifies this`world
      ensures ms == env.clock(old(world.ticks)) && world == old(world).(ticks := old(world.ticks) + 1)
    {
      ms := env.clock(world.ticks);
      world := world.(ticks := world.ticks + 1);
    }

    /** `send`: the bytes are those of the message; the record keeps the message and the result. */
    method SystemSend(fd: int, data: string, msg: Msg) returns (result: SendResult)
      requires data == Bytes(msg)
      modifies this`world
      ensures result == SendOutcome(env, old(world), fd)
      ensures world == SendAll(env, old(world), {fd}, msg)
    {
      result := SendOutcome(env, world, fd);
      ghost var spec := SendAll(env, world, {fd}, msg);
      if fd in world.descriptors && world.descriptors[fd] in world.conns {
        var c := world.descriptors[fd];
        var conn := world.conns[c];
        assert Targets(world, {fd}) == {c};
        world := world.(conns := world.conns[c := conn.(sends := conn.sends + [Attempt(msg, result)])]);
      }
      assert world.conns == spec.conns;
    }

    // ---- accepting and receiving ----

    method AcceptReadyClients(fds: seq<int>)
      modifies this
      ensures View() == AcceptAll(old(View()), fds)
    {
      for i := 0 to |fds|
        invariant View() == AcceptAll(old(View()), fds[..i])
      {
        var fd := fds[i];
        var conn := counters.totalAccepted;
        world := world.(descriptors := world.descriptors[fd := conn],
                        conns := world.conns[conn := Conn("", [])],
                        trace := world.trace + [Opened(conn)]);
        if fd !in clientBuffers {
          clientBuffers := clientBuffers[fd := ""];
        }
        telemetryClientFds := telemetryClientFds + {fd};
        counters := counters.(totalAccepted := conn + 1);
        assert fds[..i + 1][..i] == fds[..i];
      }
      assert fds[..|fds|] == fds;
    }

    method ReceiveAvailableData(fd: int, chunks: seq<string>)
      requires fd in clientBuffers
      modifies this`clientBuffers, this`world
      ensures View() == Receive(old(View()), fd, Join(chunks))
    {
      ReceiveNothing(View(), fd);
      for i := 0 to |chunks|
        invariant fd in clientBuffers
        invariant View() == Receive(old(View()), fd, Join(chunks[..i]))
      {
        ReceiveMore(old(View()), fd, Join(chunks[..i]), chunks[i]);
        JoinAppend(chunks[..i], [chunks[i]]);
        JoinOne(chunks[i]);
        assert chunks[..i + 1] == chunks[..i] + [chunks[i]];
        var c := ConnOf(world, fd);
        clientBuffers := clientBuffers[fd := clientBuffers[fd] + chunks[i]];
        if c in world.conns {
          world := world.(conns := world.conns[c := world.conns[c].(received := world.conns[c].received + chunks[i])]);
        }
      }
      assert chunks[..|chunks|] == chunks;
    }

    static method TakeNextLine(inputBuffer: string) returns (line: Option<string>, rest: string)
      ensures line.None? ==> Lines(inputBuffer) == [] && rest == inputBuffer && Rest(inputBuffer) == inputBuffer
      ensures line.Some? ==> inputBuffer == line.value + rest && line.value != ""
      ensures line.Some? ==> Lines(inputBuffer) == [line.value] + Lines(rest) && Rest(inputBuffer) == Rest(rest)
    {
      var newline := Find(inputBuffer, '\n');
      if newline == |inputBuffer| { return None, inputBuffer; }
      line := Some(inputBuffer[..newline + 1]);
      rest := inputBuffer[newline + 1..];
    }

    // ---- sending ----

    method SendAck(fd: int, status: DeviceStatus) returns (ok: bool)
      modifies this`world
      ensures ok == SendOutcome(env, old(world), fd).Written?
      ensures world == SendAll(env, old(world).(ticks := old(world.ticks) + 1), {fd},
                               Ack(status, env.clock(old(world.ticks))))
    {
      hide Render, ToString, SendAll;
      ghost var pairs := AckPairs(status, env.clock(world.ticks));
      var ack := "ACK device_id=";
      ack := ack + status.deviceId;
      FirstField("ACK", pairs);
      ack := AppendField("ACK", pairs, 1, ack, " seq=", ToString(status.sequence));
      var ms := NowMs();
      ack := AppendField("ACK", pairs, 2, ack, " server_ms=", ToString(ms));
      assert pairs[..3] == pairs;
      ack := ack + "\n";
      var sent := SystemSend(fd, ack, Ack(status, ms));
      ok := sent.Written?;
    }

    method SendLine(fd: int, line: string, msg: Msg) returns (ok: bool)
      requires line == Bytes(msg)
      modifies this`world, this`counters
      ensures ok == SendOutcome(env, old(world), fd).Written?
      ensures world == SendAll(env, old(world), {fd}, msg)
      ensures counters == old(counters).(broadcastErrors := old(counters.broadcastErrors)
                + (if SendOutcome(env, old(world), fd).HardError? then 1 else 0))
    {
      var sent := SystemSend(fd, line, msg);
      if sent.HardError? {
        counters := counters.(broadcastErrors := counters.broadcastErrors + 1);
        return false;
      }
      ok := sent.Written?;
    }

    /** Every viewer but the source, in whatever order the set is walked. */
    method BroadcastToViewers(sourceFd: int, line: string, msg: Msg)
      requires Linked(CoreView()) && line == Bytes(msg)
      modifies this`world, this`counters
      ensures CoreView() == Broadcast(env, old(CoreView()), sourceFd, msg)
    {
      hide SendAll, SendOutcome, Linked, Bytes, Walking, SentTo, Broadcast;
      ghost var core := CoreView();
      ghost var reached: set<int> := {};
      var left := viewerClientFds;
      SentToNobody(env, core, msg);
      WalkStarts(core.viewers, sourceFd);
      while left != {}
        invariant Walking(core.viewers - {sourceFd}, reached, left, sourceFd)
        invariant CoreView() == SentTo(env, core, reached, msg)
        decreases |left|
      {
        SomeDescriptor(left);
        var fd :| fd in left;
        WalkOn(core.viewers - {sourceFd}, reached, left, sourceFd, fd);
        left := left - {fd};
        if fd == sourceFd { continue; }
        SentToOneMore(env, core, reached, fd, msg);
        var _ := SendLine(fd, line, msg);
        reached := reached + {fd};
      }
      WalkEnds(core.viewers - {sourceFd}, reached, sourceFd);
      SentToViewers(env, core, sourceFd, msg);
    }

    // ---- lines ----

    method HandleHelloLine(line: string, fd: int) returns (handled: bool)
      modifies this`viewerClientFds
      ensures handled == IsHello(line)
      ensures viewerClientFds == if IsViewerHello(line) then old(viewerClientFds) + {fd} else old(viewerClientFds)
    {
      if !("HELLO " <= line) { return false; }
      if Contains(line, "role=viewer") {
        viewerClientFds := viewerClientFds + {fd};
      }
      return true;
    }

    method HandleStatusLine(line: string) returns (status: Option<DeviceStatus>)
      modifies this`counters, statusStore
      ensures status == StatusOf(line)
      ensures CoreView() == if status.Some? then Store(old(CoreView()), status.value) else Reject(old(CoreView()))
    {
      status := ParseStatusLine(line);
      if status.None? {
        counters := counters.(parseErrors := counters.parseErrors + 1);
        return None;
      }
      counters := counters.(statusReceived := counters.statusReceived + 1);
      statusStore.Upsert(status.value);
    }

    /** The body of the loop over lines. */
    method HandleOneLine(fd: int, line: string)
      requires Linked(CoreView()) && fd in world.descriptors
      modifies this`viewerClientFds, this`counters, this`world, statusStore
      ensures CoreView() == HandleLine(env, old(CoreView()), fd, line)
    {
      hide StatusOf, SendAll, Failures, Linked, Contains;
      ghost var core := CoreView();
      var conn := world.descriptors[fd];
      world := world.(trace := world.trace + [Line(conn, line)]);
      var isHello := HandleHelloLine(line, fd);
      if isHello { return; }
      var status := HandleStatusLine(line);
      if status.Some? {
        label stored:
        if status.value.ackRequested {
          var ok := SendAck(fd, status.value);
          if ok {
            counters := counters.(ackSent := counters.ackSent + 1);
          }
        }
        assert old@stored(CoreView()) == Store(Note(core, Line(conn, line)), status.value);
        assert CoreView() == Answer(env, old@stored(CoreView()), fd, status.value);
        LinkedThroughAnswer(env, core, fd, Line(conn, line), status.value);
        BroadcastToViewers(fd, line, Relay(conn, line));
      }
    }

    /** The loop over the complete lines of one connection's buffer. */
    method HandleBufferedLines(fd: int)
      requires CoreInv(CoreView()) && fd in clientBuffers && fd in world.descriptors
      modifies this`clientBuffers, this`viewerClientFds, this`counters, this`world, statusStore
      ensures View() == Drain(env, old(View()), fd)
    {
      hide CoreInv, Lines, Rest, HandleLine, HandleLines, Linked, Grown;
      ghost var core := CoreView();
      HandleNoLines(env, core, fd);
      ghost var whole := clientBuffers[fd];
      ghost var taken: seq<string> := [];
      var line, rest := TakeNextLine(clientBuffers[fd]);
      clientBuffers := clientBuffers[fd := rest];
      while line.Some?
        invariant fd in clientBuffers && fd in world.descriptors && CoreInv(CoreView())
        invariant CoreView() == HandleLines(env, core, fd, taken)
        invariant clientBuffers == old(clientBuffers)[fd := rest]
        invariant taken + (if line.Some? then [line.value] else []) + Lines(rest) == Lines(whole)
        invariant Rest(rest) == Rest(whole) && (line.None? ==> Lines(rest) == [] && Rest(rest) == rest)
        decreases |rest| + (if line.Some? then 1 else 0)
      {
        ghost var next := taken + [line.value];
        HandleLinesSnoc(env, core, fd, taken, line.value);
        CoreIsLinked(CoreView());
        HandleLineInv(env, CoreView(), fd, line.value);
        HandleLineKeeps(env, CoreView(), fd, line.value);
        HandleOneLine(fd, line.value);
        taken := next;
        line, rest := TakeNextLine(clientBuffers[fd]);
        clientBuffers := clientBuffers[fd := rest];
      }
      assert taken == Lines(whole);
    }

    // ---- events, reports and the loop ----

    method CloseClient(fd: int)
      requires fd in clientBuffers
      modifies this
      ensures View() == Disconnect(old(View()), fd)
    {
      clientBuffers := clientBuffers - {fd};
      telemetryClientFds := telemetryClientFds - {fd};
      viewerClientFds := viewerClientFds - {fd};
      counters := counters.(totalDisconnected := counters.totalDisconnected + 1);
      world := world.(descriptors := world.descriptors - {fd}, trace := world.trace + [Closed(ConnOf(world, fd))]);
    }

    /** All chunks were received on the descriptor's connection, on no other, and exactly the end of the stream closed it. */
    twostate predicate ReceivedAll(event: Event)
      requires event.Readable? && event.fd in old(world.descriptors)
      reads this
    {
      var c := old(world.descriptors)[event.fd];
      && c in old(world.conns) && world.conns.Keys == old(world.conns.Keys)
      && (forall d :: d in old(world.conns) ==>
            world.conns[d].received == old(world.conns)[d].received + (if d == c then Join(event.chunks) else ""))
      && (event.fd in clientBuffers <==> event.stillOpen)
      && (event.fd in telemetryClientFds <==> event.stillOpen)
      && (!event.stillOpen ==> event.fd !in viewerClientFds)
      && counters.totalDisconnected == old(counters.totalDisconnected) + (if event.stillOpen then 0 else 1)
    }

    /** One event of a batch. */
    method HandleEvent(event: Event)
      requires Healthy(env, View())
      modifies this, statusStore
      ensures View() == Step(env, old(View()), event)
      ensures event.Readable? && event.fd in old(world.descriptors) ==> ReceivedAll(event)
    {
      HealthyParts(env, View());
      if event.Readable? && event.fd in world.descriptors {
        ReadableReceivesAll(env, View(), event.fd, event.chunks, event.stillOpen);
      }
      match event
      case Incoming(fds) => AcceptReadyClients(fds);
      case Readable(fd, chunks, stillOpen) =>
        if fd !in clientBuffers {
          world := world.(descriptors := world.descriptors - {fd});
          return;
        }
        ReceiveInv(View(), fd, Join(chunks));
        ReceiveFields(View(), fd, Join(chunks));
        ReceiveAvailableData(fd, chunks);
        HandleBufferedLines(fd);
        if !stillOpen {
          CloseClient(fd);
        }
    }

    method MakeMetricsLine(currentMs: nat) returns (metrics: ServerMetrics, line: string)
      requires counters.startMs <= counters.lastReportMs <= currentMs
      requires counters.lastReportStatusReceived <= counters.statusReceived
      ensures metrics == Snapshot(counters, |telemetryClientFds|, |statusStore.statusesById|, currentMs)
      ensures line == Bytes(Report(metrics))
    {
      var sinceReport: nat := currentMs - counters.lastReportMs;
      var elapsedMs := if sinceReport > 1 then sinceReport else 1;
      var messagesDelta: nat := counters.statusReceived - counters.lastReportStatusReceived;
      var msgPerSec := (messagesDelta as real * 1000.0 / elapsedMs as real).Floor;
      var uptimeMs: nat := currentMs - counters.startMs;
      metrics := MetricsCodec.ServerMetrics(
        Wrap(uptimeMs / 1000),
        Wrap(|telemetryClientFds|),
        Wrap(counters.totalAccepted),
        Wrap(counters.totalDisconnected),
        Wrap(statusStore.Size()),
        Wrap(counters.statusReceived),
        Wrap(counters.ackSent),
        Wrap(counters.parseErrors),
        Wrap(counters.broadcastErrors),
        Wrap(msgPerSec));
      line := MetricsCodec.FormatMetricsLine(metrics);
    }

    method PrintMetricsIfDue()
      requires Linked(CoreView())
      requires counters.startMs <= counters.lastReportMs <= env.clock(world.ticks)
      requires counters.lastReportStatusReceived <= counters.statusReceived
      modifies this`world, this`counters
      ensures View() == ReportIfDue(env, old(View()))
    {
      hide SendAll, Failures, Snapshot, Linked, Bytes;
      LinkedIgnoresTheRecord(CoreView());
      var currentMs := NowMs();
      if currentMs - counters.lastReportMs < 1000 { return; }
      var metrics, line := MakeMetricsLine(currentMs);
      world := world.(trace := world.trace + [Reported(metrics, counters.lastReportMs, currentMs)]);
      BroadcastToViewers(-1, line, Report(metrics));
      counters := counters.(lastReportMs := currentMs, lastReportStatusReceived := counters.statusReceived);
    }

    /**
     The event loop over any possible sequence of batches: the state it reaches is
     the one the specification reaches, and it is healthy.
     */
    method RunEventLoop(batches: seq<seq<Event>>)
      requires View() == Init(env) && PossibleRun(env, batches)
      modifies this, statusStore
      ensures View() == Run(env, batches)
      ensures Healthy(env, View()) && RecordsArrivals(View(), Flat(batches))
    {
      RunRecordsArrivals(env, batches);
      hide Healthy, RecordsArrivals, Step, ReportIfDue, PossibleBatch, Init;
      assert batches[..0] == [];
      RunHealthy(env, batches);
      for b := 0 to |batches|
        invariant View() == Run(env, batches[..b])
      {
        RunPrefixHealthy(env, batches, b);
        ghost var start := View();
        var events := batches[b];
        assert events[..0] == [];
        for i := 0 to |events|
          invariant View() == Steps(env, start, events[..i])
        {
          EventIsEnabled(env, start, events, i);
          StepsSnoc(env, start, events, i);
          HandleEvent(events[i]);
        }
        assert events[..|events|] == events;
        EventsHealthy(env, start, events);
        PrintMetricsIfDue();
        RunSnoc(env, batches, b);
      }
      assert batches[..|batches|] == batches;
    }
  }

  // ---- what the loops rely on ----

  lemma RunSnoc(env: Env, batches: seq<seq<Event>>, b: nat)
    requires b < |batches|
    ensures Run(env, batches[..b + 1]) == RunBatch(env, Run(env, batches[..b]), batches[b])
  {
    assert batches[..b + 1][..b] == batches[..b];
  }

  lemma RunPrefixHealthy(env: Env, batches: seq<seq<Event>>, b: nat)
    requires PossibleRun(env, batches) && b < |batches|
    ensures Healthy(env, Run(env, batches[..b])) && PossibleBatch(env, Run(env, batches[..b]), batches[b])
  {
    hide Healthy, PossibleBatch;
    var front := batches[..b];
    forall i | 0 <= i < |front| ensures PossibleBatch(env, Run(env, front[..i]), front[i]) {
      assert front[..i] == batches[..i];
    }
    RunHealthy(env, front);
  }

  lemma EventIsEnabled(env: Env, s: State, events: seq<Event>, i: nat)
    requires Monotone(env) && Healthy(env, s) && PossibleBatch(env, s, events) && i < |events|
    ensures Healthy(env, Steps(env, s, events[..i])) && Enabled(Steps(env, s, events[..i]), events[i])
  {
    hide Healthy;
    BatchMeetsNoUnknownDescriptor(env, s, events, i);
  }

  lemma EventsHealthy(env: Env, s: State, events: seq<Event>)
    requires Monotone(env) && Healthy(env, s) && PossibleBatch(env, s, events)
    ensures var after := Steps(env, s, events); var c := after.core.counters;
            && Linked(after.core)
            && c.startMs <= c.lastReportMs <= env.clock(after.core.world.ticks)
            && c.lastReportStatusReceived <= c.statusReceived
  {
    hide PossibleBatch, Framed, Settled, ViewersWatch, SendsAsOwed, NothingBeforeAccept, Statuses, LastById;
    BatchMeetsNoUnknownDescriptor(env, s, events, |events|);
    assert events[..|events|] == events;
    CountsAreOrdered(Steps(env, s, events).core.world.trace);
  }

  lemma ReceiveNothing(s: State, fd: int)
    requires fd in s.buffers
    ensures Receive(s, fd, Join([])) == s
  {
    var w, c := s.core.world, ConnOf(s.core.world, fd);
    assert s.buffers[fd] + "" == s.buffers[fd];
    assert s.buffers[fd := s.buffers[fd]] == s.buffers;
    if c in w.conns {
      assert w.conns[c].received + "" == w.conns[c].received;
      assert w.conns[c := w.conns[c]] == w.conns;
    }
  }

  lemma ReceiveMore(s: State, fd: int, a: string, b: string)
    requires fd in s.buffers
    ensures Receive(Receive(s, fd, a), fd, b) == Receive(s, fd, a + b)
  {
    var c := ConnOf(s.core.world, fd);
    assert (s.buffers[fd] + a) + b == s.buffers[fd] + (a + b);
    if c in s.core.world.conns {
      var received := s.core.world.conns[c].received;
      assert (received + a) + b == received + (a + b);
    }
  }

  lemma HandleNoLines(env: Env, core: Core, fd: int)
    ensures HandleLines(env, core, fd, []) == core
  {
  }

  lemma HandleLinesSnoc(env: Env, core: Core, fd: int, lines: seq<string>, line: string)
    ensures HandleLines(env, core, fd, lines + [line]) == HandleLine(env, HandleLines(env, core, fd, lines), fd, line)
  {
    assert (lines + [line])[..|lines|] == lines;
  }

  /** Walking a set: what was reached and what is left, except for the source. */
  ghost predicate Walking(goal: set<int>, reached: set<int>, left: set<int>, source: int) {
    reached !! left && reached + (left - {source}) == goal
  }

  lemma WalkStarts(viewers: set<int>, source: int)
    ensures Walking(viewers - {source}, {}, viewers, source)
  {
  }

  lemma WalkOn(goal: set<int>, reached: set<int>, left: set<int>, source: int, fd: int)
    requires Walking(goal, reached, left, source) && fd in left
    ensures fd !in reached && |left - {fd}| < |left|
    ensures Walking(goal, if fd == source then reached else reached + {fd}, left - {fd}, source)
  {
  }

  lemma WalkEnds(goal: set<int>, reached: set<int>, source: int)
    requires Walking(goal, reached, {}, source)
    ensures reached == goal
  {
  }

  lemma LinkedThroughAnswer(env: Env, core: Core, fd: int, entry: Entry, status: DeviceStatus)
    requires Linked(core)
    ensures Linked(Answer(env, Store(Note(core, entry), status), fd, status))
  {
    hide Answer;
    AnswerKeeps(env, Store(Note(core, entry), status), fd, status);
  }

  lemma LinkedIgnoresTheRecord(core: Core)
    requires Linked(core)
    ensures forall entry: Entry, ticks: nat ::
      Linked(core.(world := core.world.(ticks := ticks, trace := core.world.trace + [entry])))
  {
  }

  lemma DistinctTargets(core: Core, fds: set<int>, fd: int)
    requires Linked(core) && fd !in fds
    ensures var w := core.world;
            forall gd :: gd in fds && gd in w.descriptors && fd in w.descriptors ==> w.descriptors[gd] != w.descriptors[fd]
  {
  }

  /** The state after a message has been sent to some descriptors, failures counted. */
  ghost function SentTo(env: Env, core: Core, fds: set<int>, msg: Msg): Core {
    core.(world := SendAll(env, core.world, fds, msg),
          counters := core.counters.(broadcastErrors := core.counters.broadcastErrors + Failures(env, core.world, fds)))
  }

  lemma SentToNobody(env: Env, core: Core, msg: Msg)
    ensures SentTo(env, core, {}, msg) == core
  {
    hide SendAll, Failures;
    SendToNobody(env, core.world, msg);
  }

  lemma SentToViewers(env: Env, core: Core, source: int, msg: Msg)
    ensures SentTo(env, core, core.viewers - {source}, msg) == Broadcast(env, core, source, msg)
  {
    hide SendAll, Failures;
  }

  lemma SentToOneMore(env: Env, core: Core, fds: set<int>, fd: int, msg: Msg)
    requires Linked(core) && fd !in fds
    ensures var mid := SentTo(env, core, fds, msg);
            var failed := if SendOutcome(env, mid.world, fd).HardError? then 1 else 0;
            SentTo(env, core, fds + {fd}, msg)
              == mid.(world := SendAll(env, mid.world, {fd}, msg),
                      counters := mid.counters.(broadcastErrors := mid.counters.broadcastErrors + failed))
  {
    DistinctTargets(core, fds, fd);
    hide SendAll, Failures, Linked, SendOutcome;
    SendToOneMore(env, core.world, fds, fd, msg);
  }

  lemma SendToNobody(env: Env, w: World, msg: Msg)
    ensures SendAll(env, w, {}, msg) == w && Failures(env, w, {}) == 0
  {
    assert SendAll(env, w, {}, msg).conns == w.conns;
  }

  /** Broadcasting one descriptor at a time: sends on distinct connections do not disturb each other. */
  lemma SendToOneMore(env: Env, w: World, fds: set<int>, fd: int, msg: Msg)
    requires fd !in fds
    requires forall gd :: gd in fds && gd in w.descriptors && fd in w.descriptors ==> w.descriptors[gd] != w.descriptors[fd]
    ensures var mid := SendAll(env, w, fds, msg);
            && SendAll(env, mid, {fd}, msg) == SendAll(env, w, fds + {fd}, msg)
            && SendOutcome(env, mid, fd) == SendOutcome(env, w, fd)
    ensures Failures(env, w, fds + {fd}) == Failures(env, w, fds) + (if SendOutcome(env, w, fd).HardError? then 1 else 0)
  {
    var mid := SendAll(env, w, fds, msg);
    assert fd in w.descriptors ==> w.descriptors[fd] !in Targets(w, fds);
    assert Targets(w, fds + {fd}) == Targets(w, fds) + Targets(w, {fd});
    assert Targets(mid, {fd}) == Targets(w, {fd});
    assert SendAll(env, mid, {fd}, msg).conns == SendAll(env, w, fds + {fd}, msg).conns;
    FailuresOfOneMore(env, w, fds, fd);
  }

  lemma FailuresOfOneMore(env: Env, w: World, fds: set<int>, fd: int)
    requires fd !in fds
    ensures Failures(env, w, fds + {fd}) == Failures(env, w, fds) + (if SendOutcome(env, w, fd).HardError? then 1 else 0)
  {
    hide SendOutcome;
    var failed := set gd | gd in fds && SendOutcome(env, w, gd).HardError?;
    assert (set gd | gd in fds + {fd} && SendOutcome(env, w, gd).HardError?)
        == if SendOutcome(env, w, fd).HardError? then failed + {fd} else failed;
  }
}
