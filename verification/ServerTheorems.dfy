/**
 What holds in every state the server can reach, stated for its users: the
 event loop is a line-at-a-time server, messages go only where they belong, and
 reports tell the truth.
 */
module ServerTheorems {
  import opened Text
  import opened Decimal
  import opened Fields
  import opened StatusCodec
  import opened StatusStore
  import opened ServerSpec
  import opened ServerInvariant
  import opened ServerReports
  import opened ServerRuns
  import opened ServerBytes
  import MetricsCodec

  // ---- refinement of the line-at-a-time server ----

  /**
   In every run, each connection was offered exactly the messages the trace owes
   it, and the three collections of the event loop stay in step.
   */
  lemma RunRefinesLineSpec(env: Env, batches: seq<seq<Event>>)
    requires PossibleRun(env, batches)
    ensures var s := Run(env, batches); var w := s.core.world; var t := w.trace;
            && (forall c :: c in w.conns ==> Offered(w.conns[c].sends) == Expect(t, c))
            && s.core.store == LastById(Statuses(t))
            && s.core.counters.statusReceived == |Statuses(t)|
            && s.core.counters.parseErrors == BadLines(t)
            && s.buffers.Keys == s.telemetry == w.descriptors.Keys
            && s.core.viewers <= s.telemetry
            && s.core.counters.totalAccepted == s.core.counters.totalDisconnected + |s.telemetry|
  {
    hide Timed, Expect, Offered, Statuses, BadLines, LastById, Watching, Framed, Settled;
    RunHealthy(env, batches);
  }

  /** Nothing that arrived is lost, reordered or left waiting: lines handled, then the buffer, are the bytes that arrived. */
  lemma RunHandlesEveryByteInOrder(env: Env, batches: seq<seq<Event>>, fd: int)
    requires PossibleRun(env, batches) && fd in Run(env, batches).buffers
    ensures var s := Run(env, batches); var w := s.core.world;
            && fd in w.descriptors && w.descriptors[fd] in w.conns
            && fd in Wired(Flat(batches)).owner
            && Join(Handled(w.trace, w.descriptors[fd])) + s.buffers[fd]
                 == Arrived(Flat(batches), Wired(Flat(batches)).owner[fd])
            && Free(s.buffers[fd], '\n')
  {
    hide Lines, Rest, Join, Timed, Handled, Watching, Expect, Offered, Arrived, Wired, Flat;
    RunHealthy(env, batches);
    RunRecordsArrivals(env, batches);
    var s := Run(env, batches);
    var w := s.core.world;
    var c := w.descriptors[fd];
    assert FramedAt(w, c, s.buffers[fd]);
    NoLines(s.buffers[fd]);
    LinesAreTheBuffer(w.conns[c].received);
    assert Handled(w.trace, c) + [] == Handled(w.trace, c);
  }

  /** A connection that has closed had all its complete lines handled first. */
  lemma RunHandlesLinesBeforeClosing(env: Env, batches: seq<seq<Event>>, c: nat)
    requires PossibleRun(env, batches)
    requires var w := Run(env, batches).core.world; c in w.conns && !IsOpen(w, c)
    ensures Handled(Run(env, batches).core.world.trace, c) == Lines(Arrived(Flat(batches), c))
  {
    hide Lines, Rest, Timed, Handled, Watching, Expect, Offered, Arrived, Wired, Flat;
    RunHealthy(env, batches);
    RunRecordsArrivals(env, batches);
  }

  /** The texts of the complete lines in the global order in which they were handled. */
  function LineOrder(t: seq<Entry>): seq<string> {
    if t == [] then [] else LineOrder(Front(t)) + (if Last(t).Line? then [Last(t).line] else [])
  }

  function AcceptedIn(lines: seq<string>): seq<DeviceStatus> {
    if lines == [] then []
    else
      AcceptedIn(Front(lines)) + (if Accepted(Last(lines)).Some? then [Accepted(Last(lines)).value] else [])
  }

  function RejectedIn(lines: seq<string>): nat {
    if lines == [] then 0
    else
      RejectedIn(Front(lines)) + (if !IsHello(Last(lines)) && StatusOf(Last(lines)).None? then 1 else 0)
  }

  lemma {:induction false} CountsDependOnLineOrder(t: seq<Entry>)
    ensures Statuses(t) == AcceptedIn(LineOrder(t)) && BadLines(t) == RejectedIn(LineOrder(t))
  {
    hide StatusOf;
    if t != [] {
      CountsDependOnLineOrder(Front(t));
      var lines := LineOrder(Front(t));
      assert lines + [] == lines;
      if Last(t).Line? {
        assert Front(lines + [Last(t).line]) == lines;
      }
    }
  }

  /**
   Two servers that handled the same complete lines in the same global order hold
   the same store and the same line counters, however `recv` cut the streams,
   whatever was accepted or closed, and whatever happened to their sends.
   */
  lemma ChunkingDoesNotShow(env1: Env, run1: seq<seq<Event>>, env2: Env, run2: seq<seq<Event>>)
    requires PossibleRun(env1, run1) && PossibleRun(env2, run2)
    requires LineOrder(Run(env1, run1).core.world.trace) == LineOrder(Run(env2, run2).core.world.trace)
    ensures var a, b := Run(env1, run1).core, Run(env2, run2).core;
            && a.store == b.store
            && a.counters.statusReceived == b.counters.statusReceived
            && a.counters.parseErrors == b.counters.parseErrors
  {
    hide PossibleRun, Statuses, BadLines, LineOrder, LastById;
    RunRefinesLineSpec(env1, run1);
    RunRefinesLineSpec(env2, run2);
    CountsDependOnLineOrder(Run(env1, run1).core.world.trace);
    CountsDependOnLineOrder(Run(env2, run2).core.world.trace);
  }

  // ---- one read or two ----

  function ReceiveOn(core: Core, c: nat, data: string): Core {
    var w := core.world;
    if c in w.conns
    then core.(world := w.(conns := w.conns[c := w.conns[c].(received := w.conns[c].received + data)]))
    else core
  }

  lemma SendAllCommutes(env: Env, core: Core, c: nat, data: string, fds: set<int>, msg: Msg)
    requires c in core.world.conns
    ensures SendAll(env, ReceiveOn(core, c, data).world, fds, msg)
         == ReceiveOn(core.(world := SendAll(env, core.world, fds, msg)), c, data).world
    ensures Failures(env, ReceiveOn(core, c, data).world, fds) == Failures(env, core.world, fds)
  {
    var w := core.world;
    var left := SendAll(env, ReceiveOn(core, c, data).world, fds, msg);
    var right := ReceiveOn(core.(world := SendAll(env, w, fds, msg)), c, data).world;
    assert Targets(ReceiveOn(core, c, data).world, fds) == Targets(w, fds);
    assert left.conns == right.conns;
    assert (set fd | fd in fds && SendOutcome(env, ReceiveOn(core, c, data).world, fd).HardError?)
        == (set fd | fd in fds && SendOutcome(env, w, fd).HardError?);
  }

  /** Receiving more bytes and handling a line commute. */
  lemma HandleLineCommutes(env: Env, core: Core, fd: int, line: string, c: nat, data: string)
    requires c in core.world.conns
    ensures HandleLine(env, ReceiveOn(core, c, data), fd, line) == ReceiveOn(HandleLine(env, core, fd, line), c, data)
  {
    hide StatusOf, SendAll, Failures;
    var d := ConnOf(core.world, fd);
    var status := Accepted(line);
    if status.Some? {
      var stored := Store(Note(core, Line(d, line)), status.value);
      var answered := Answer(env, stored, fd, status.value);
      AnswerCommutes(env, stored, fd, status.value, c, data);
      AnswerKeeps(env, stored, fd, status.value);
      SendAllCommutes(env, answered, c, data, answered.viewers - {fd}, Relay(d, line));
      SendAllFields(env, answered.world, answered.viewers - {fd}, Relay(d, line));
      assert HandleLine(env, core, fd, line) == Broadcast(env, answered, fd, Relay(d, line));
    }
  }

  lemma AnswerCommutes(env: Env, core: Core, fd: int, status: DeviceStatus, c: nat, data: string)
    requires c in core.world.conns
    ensures Answer(env, ReceiveOn(core, c, data), fd, status) == ReceiveOn(Answer(env, core, fd, status), c, data)
  {
    hide SendAll;
    var w := core.world.(ticks := core.world.ticks + 1);
    var ack := Ack(status, env.clock(core.world.ticks));
    SendAllCommutes(env, core.(world := w), c, data, {fd}, ack);
    SendAllKeeps(env, w, {fd}, ack);
    SendAllFields(env, w, {fd}, ack);
  }

  lemma {:induction false} HandleLinesCommutes(env: Env, core: Core, fd: int, lines: seq<string>, c: nat, data: string)
    requires c in core.world.conns
    ensures HandleLines(env, ReceiveOn(core, c, data), fd, lines) == ReceiveOn(HandleLines(env, core, fd, lines), c, data)
    ensures c in HandleLines(env, core, fd, lines).world.conns
    ensures HandleLines(env, core, fd, lines).world.descriptors == core.world.descriptors
  {
    hide HandleLine;
    if lines != [] {
      var mid := HandleLines(env, core, fd, lines[..|lines| - 1]);
      HandleLinesCommutes(env, core, fd, lines[..|lines| - 1], c, data);
      HandleLineCommutes(env, mid, fd, lines[|lines| - 1], c, data);
      HandleLineKeeps(env, mid, fd, lines[|lines| - 1]);
    }
  }

  lemma {:induction false} HandleLinesAppend(env: Env, core: Core, fd: int, a: seq<string>, b: seq<string>)
    ensures HandleLines(env, core, fd, a + b) == HandleLines(env, HandleLines(env, core, fd, a), fd, b)
  {
    hide HandleLine;
    if b == [] {
      assert a + b == a;
    } else {
      HandleLinesAppend(env, core, fd, a, b[..|b| - 1]);
      assert (a + b)[..|a + b| - 1] == a + b[..|b| - 1];
    }
  }

  /**
   Bytes that arrive as two readable events have the effect, sends included, of
   one event carrying them together.
   */
  lemma SplittingAReadIsInvisible(env: Env, s: State, fd: int, a: string, b: string, stillOpen: bool)
    requires fd in s.buffers && fd in s.core.world.descriptors && s.core.world.descriptors[fd] in s.core.world.conns
    ensures Step(env, Step(env, s, Readable(fd, [a], true)), Readable(fd, [b], stillOpen))
         == Step(env, s, Readable(fd, [a + b], stillOpen))
  {
    hide HandleLine, HandleLines, Lines, Rest, Disconnect;
    JoinOne(a);
    JoinOne(b);
    JoinOne(a + b);
    var c := s.core.world.descriptors[fd];
    var buffer := s.buffers[fd];
    var first := Lines(buffer + a);
    var left := Rest(buffer + a);
    LinesOfChunks(buffer + a, b);
    assert (buffer + a) + b == buffer + (a + b);
    var coreA := ReceiveOn(s.core, c, a);
    HandleLinesAppend(env, ReceiveOn(coreA, c, b), fd, first, Lines(left + b));
    HandleLinesCommutes(env, coreA, fd, first, c, b);
    assert (s.core.world.conns[c].received + a) + b == s.core.world.conns[c].received + (a + b);
    assert ReceiveOn(coreA, c, b) == ReceiveOn(s.core, c, a + b);
    var stepA := Step(env, s, Readable(fd, [a], true));
    assert stepA == s.(core := HandleLines(env, coreA, fd, first), buffers := s.buffers[fd := left]);
    assert c in stepA.core.world.conns && ConnOf(stepA.core.world, fd) == c;
    var coreB := HandleLines(env, ReceiveOn(stepA.core, c, b), fd, Lines(left + b));
    assert Drain(env, Receive(stepA, fd, b), fd) == s.(core := coreB, buffers := s.buffers[fd := Rest(left + b)]);
    assert Drain(env, Receive(s, fd, a + b), fd)
        == s.(core := HandleLines(env, ReceiveOn(s.core, c, a + b), fd, Lines(buffer + (a + b))),
              buffers := s.buffers[fd := Rest(buffer + (a + b))]);
  }

  // ---- routing ----

  function HelloText(between: string, after: string): string {
    "HELLO " + between + "role=viewer" + after
  }

  /** Exactly the lines that start with `HELLO ` and say `role=viewer` after it register; `HELLO role=viewer` does. */
  lemma ViewerHelloExactly(line: string)
    ensures IsViewerHello(line) <==> exists between, after :: line == HelloText(between, after)
    ensures line == "HELLO role=viewer\n" ==> IsViewerHello(line)
  {
    if IsViewerHello(line) {
      var i :| 0 <= i <= |line| && OccursAt(line, "role=viewer", i);
      SplitHello(line, i);
    }
    forall between, after | line == HelloText(between, after) ensures IsViewerHello(line) {
      assert line[..6] == "HELLO ";
      assert OccursAt(line, "role=viewer", 6 + |between|);
    }
    if line == "HELLO role=viewer\n" {
      assert line == HelloText("", "\n");
    }
  }

  lemma SplitHello(line: string, i: nat)
    requires IsHello(line) && i <= |line| && OccursAt(line, "role=viewer", i)
    ensures 6 <= i && i + 11 <= |line| && line == HelloText(line[6..i], line[i + 11..])
  {
    assert line[i] == line[i..i + 11][0] == 'r';
    assert line[..6] == "HELLO ";
    assert forall j :: 0 <= j < 6 ==> line[j] == line[..6][j] != 'r';
    assert line == line[..6] + line[6..i] + line[i..i + 11] + line[i + 11..];
  }

  /** HELLO lines are exactly those starting with the word and a space. */
  lemma HelloExactly(line: string)
    ensures IsHello(line) <==> exists text :: line == "HELLO " + text
  {
    if IsHello(line) {
      assert line == "HELLO " + line[6..];
    }
  }

  /** The acknowledgements owed to a connection for its own lines. */
  function AcksFor(lines: seq<string>): seq<Msg> {
    if lines == [] then []
    else
      var status := Accepted(Last(lines));
      AcksFor(Front(lines)) + (if status.Some? && status.value.ackRequested then [Ack(status.value, 0)] else [])
  }

  /** A connection that never said it is a viewer is owed one ACK per own STATUS that asks for it, and nothing else. */
  lemma {:induction false} OnlyOwnAcks(t: seq<Entry>, c: nat)
    requires forall i :: 0 <= i < |Handled(t, c)| ==> !IsViewerHello(Handled(t, c)[i])
    ensures !Watching(t, c)
    ensures Expect(t, c) == AcksFor(Handled(t, c))
  {
    hide StatusOf, IsViewerHello;
    if t != [] {
      var before := Handled(Front(t), c);
      forall i | 0 <= i < |before| ensures !IsViewerHello(before[i]) {
        assert Handled(t, c)[i] == before[i];
      }
      OnlyOwnAcks(Front(t), c);
      assert before + [] == before;
      if Last(t).Line? && Last(t).conn == c {
        assert Handled(t, c)[|before|] == Last(t).line;
        assert Front(before + [Last(t).line]) == before;
      }
    }
  }

  /** Nobody is owed an echo: relayed lines come from other connections, answers concern own lines. */
  lemma {:induction false} NoEcho(t: seq<Entry>, c: nat, i: nat)
    requires i < |Expect(t, c)|
    ensures Expect(t, c)[i].Relay? ==> Expect(t, c)[i].source != c
    ensures Expect(t, c)[i].Ack? ==>
              exists line :: line in Handled(t, c) && Accepted(line) == Some(Expect(t, c)[i].status)
  {
    hide StatusOf;
    var before := Expect(Front(t), c);
    if i < |before| {
      NoEcho(Front(t), c, i);
      assert Expect(t, c)[i] == before[i];
      if before[i].Ack? {
        var line :| line in Handled(Front(t), c) && Accepted(line) == Some(before[i].status);
        assert line in Handled(t, c);
      }
    } else if Expect(t, c)[i].Ack? {
      assert Last(t).line in Handled(t, c);
    }
  }

  lemma {:induction false} OfferedAt(sends: seq<Attempt>, i: nat)
    requires i < |sends|
    ensures |Offered(sends)| == |sends| && Offered(sends)[i] == Timeless(sends[i].msg)
  {
    if |sends| > 1 {
      OfferedAt(Front(sends), if i < |sends| - 1 then i else 0);
    }
  }

  lemma OfferedLength(sends: seq<Attempt>)
    ensures |Offered(sends)| == |sends|
  {
    if sends != [] {
      OfferedAt(sends, 0);
    }
  }

  /**
   Isolation over whole runs: nothing is relayed back to its source, every
   acknowledgement answers a line of the same connection, and a connection that
   never registered as a viewer gets acknowledgements only.
   */
  lemma RunIsolatesConnections(env: Env, batches: seq<seq<Event>>, c: nat, i: nat)
    requires PossibleRun(env, batches)
    requires var w := Run(env, batches).core.world; c in w.conns && i < |w.conns[c].sends|
    ensures var w := Run(env, batches).core.world; var msg := w.conns[c].sends[i].msg;
            && (msg.Relay? ==> msg.source != c)
            && (msg.Ack? ==> exists line :: line in Handled(w.trace, c) && Accepted(line) == Some(msg.status))
            && ((forall k :: 0 <= k < |Handled(w.trace, c)| ==> !IsViewerHello(Handled(w.trace, c)[k])) ==> msg.Ack?)
  {
    hide PossibleRun, Expect, Handled, Offered, AcksFor, Run, IsViewerHello;
    RunRefinesLineSpec(env, batches);
    var w := Run(env, batches).core.world;
    OfferedAt(w.conns[c].sends, i);
    NoEcho(w.trace, c, i);
    if forall k :: 0 <= k < |Handled(w.trace, c)| ==> !IsViewerHello(Handled(w.trace, c)[k]) {
      OnlyOwnAcks(w.trace, c);
      AcksForAreAcks(Handled(w.trace, c), i);
    }
  }

  lemma {:induction false} AcksForAreAcks(lines: seq<string>, i: nat)
    requires i < |AcksFor(lines)|
    ensures AcksFor(lines)[i].Ack?
  {
    hide StatusOf;
    if i < |AcksFor(Front(lines))| {
      AcksForAreAcks(Front(lines), i);
    }
  }

  // ---- reports ----

  lemma {:induction false} ReportsTruthfulAt(t: seq<Entry>, startMs: nat, i: nat)
    requires ReportsTruthful(t, startMs) && i < |t| && t[i].Reported?
    ensures Truthful(t[..i], t[i], startMs)
  {
    hide Truthful;
    if i < |t| - 1 {
      ReportsTruthfulAt(Front(t), startMs, i);
      assert Front(t)[..i] == t[..i];
    }
  }

  lemma {:induction false} CountsAreOrdered(t: seq<Entry>)
    ensures AckRequests(t) <= |Statuses(t)| && |LastById(Statuses(t))| <= |Statuses(t)|
    ensures LastReportReceived(t) <= |Statuses(t)|
  {
    RegistryIsSmall(Statuses(t));
    hide StatusOf, LastById;
    if t != [] {
      CountsAreOrdered(Front(t));
    }
  }

  /** A report, read back from its line, balances and states facts about the trace before it. */
  ghost predicate Balances(t: seq<Entry>, e: Entry)
    requires e.Reported?
  {
    var m := e.metrics;
    && MetricsCodec.MetricsOf(Bytes(Report(m))) == Some(m)
    && m.accepted == Opens(t) && m.disconnected == Closes(t)
    && m.accepted == m.active + m.disconnected
    && m.received == |Statuses(t)| && m.devices == |LastById(Statuses(t))|
    && m.ackSent <= m.received && m.devices <= m.received
    && e.toMs - e.fromMs >= 1000
    && IsRate(m.msgPerSec, m.received - LastReportReceived(t), e.toMs - e.fromMs)
  }

  /** `r` is the number of messages per second over the window, truncated. */
  predicate IsRate(r: int, messages: int, elapsedMs: int) {
    messages >= 0 && r * elapsedMs <= 1000 * messages < (r + 1) * elapsedMs
  }

  lemma ReportedRate(messages: nat, elapsedMs: nat)
    requires elapsedMs >= 1000 && messages < U64_LIMIT
    ensures IsRate(Wrap(Rate(messages, elapsedMs)), messages, elapsedMs)
  {
    RateIsTruncatedQuotient(messages, elapsedMs);
    hide Rate;
    WrapSmall(Rate(messages, elapsedMs));
  }

  lemma WrapSmall(n: nat)
    requires n < U64_LIMIT
    ensures Wrap(n) == n
  {
  }

  lemma ReportReadsBack(m: ServerMetrics)
    ensures MetricsCodec.MetricsOf(Bytes(Report(m))) == Some(m)
  {
    MetricsCodec.MetricsRoundTrip(m);
  }

  lemma TruthfulCounts(t: seq<Entry>, e: Entry, startMs: nat)
    requires e.Reported? && Truthful(t, e, startMs)
    requires Opens(t) < U64_LIMIT && |Statuses(t)| < U64_LIMIT
    ensures var m := e.metrics;
            && m.accepted == Opens(t) && m.disconnected == Closes(t) && m.active == Opens(t) - Closes(t)
            && m.received == |Statuses(t)| && m.devices == |LastById(Statuses(t))|
            && m.ackSent <= AckRequests(t) <= |Statuses(t)| && m.devices <= m.received
  {
    CountsAreOrdered(t);
    hide Wrap, Statuses, Opens, Closes, BadLines, AckRequests, LastById, LastReportReceived, LastReportMs, Rate;
    WrapSmall(Opens(t));
    WrapSmall(Closes(t));
    WrapSmall(Opens(t) - Closes(t));
    WrapSmall(|Statuses(t)|);
    WrapSmall(|LastById(Statuses(t))|);
    var acks: nat :| acks <= AckRequests(t) && e.metrics.ackSent == Wrap(acks);
    WrapSmall(acks);
  }

  lemma TruthfulRate(t: seq<Entry>, e: Entry, startMs: nat)
    requires e.Reported? && Truthful(t, e, startMs) && |Statuses(t)| < U64_LIMIT
    ensures e.toMs - e.fromMs >= 1000
    ensures IsRate(e.metrics.msgPerSec, |Statuses(t)| - LastReportReceived(t), e.toMs - e.fromMs)
  {
    hide Rate, Wrap, Statuses, Opens, Closes, BadLines, AckRequests, LastById, LastReportReceived, LastReportMs;
    CountsAreOrdered(t);
    var messages, elapsedMs := |Statuses(t)| - LastReportReceived(t), e.toMs - e.fromMs;
    assert e.metrics.msgPerSec == Wrap(Rate(messages, elapsedMs)) && elapsedMs >= 1000;
    hide *;
    ReportedRate(messages, elapsedMs);
  }

  lemma TruthfulBalances(t: seq<Entry>, e: Entry, startMs: nat)
    requires e.Reported? && Truthful(t, e, startMs)
    requires Opens(t) < U64_LIMIT && |Statuses(t)| < U64_LIMIT
    ensures Balances(t, e)
  {
    hide Truthful, MetricsCodec.MetricsOf, Bytes, IsRate, Statuses, Opens, Closes, AckRequests, LastById, LastReportReceived;
    ReportReadsBack(e.metrics);
    TruthfulCounts(t, e, startMs);
    TruthfulRate(t, e, startMs);
  }

  /**
   Every METRICS line ever emitted reads back as a snapshot that balances: accepted
   is active plus disconnected, no more acknowledgements or devices than statuses,
   and a rate that is the truncated quotient of its window.
   */
  lemma EveryReportBalances(env: Env, batches: seq<seq<Event>>, i: nat)
    requires PossibleRun(env, batches)
    requires var t := Run(env, batches).core.world.trace;
             i < |t| && t[i].Reported? && Opens(t[..i]) < U64_LIMIT && |Statuses(t[..i])| < U64_LIMIT
    ensures var t := Run(env, batches).core.world.trace; Balances(t[..i], t[i])
  {
    RunHealthy(env, batches);
    var s := Run(env, batches);
    HealthyParts(env, s);
    var t, startMs := s.core.world.trace, s.core.counters.startMs;
    assert ReportsTruthful(t, startMs);
    hide *;
    ReportsTruthfulAt(t, startMs, i);
    TruthfulBalances(t[..i], t[i], startMs);
  }

  /** Totals over all report windows. */
  function ReportedTime(t: seq<Entry>): int {
    if t == [] then 0
    else ReportedTime(Front(t)) + (if Last(t).Reported? then Last(t).toMs - Last(t).fromMs else 0)
  }

  function ReportedMessages(t: seq<Entry>): int {
    if t == [] then 0
    else
      ReportedMessages(Front(t))
      + (if Last(t).Reported? then |Statuses(Front(t))| - LastReportReceived(Front(t)) else 0)
  }

  /** Windows tile the time since the start without gap or overlap, and their message counts add up. */
  lemma {:induction false} WindowsTile(t: seq<Entry>, startMs: nat)
    requires ReportsTruthful(t, startMs)
    ensures startMs + ReportedTime(t) == LastReportMs(t, startMs)
    ensures ReportedMessages(t) == LastReportReceived(t)
  {
    hide Statuses;
    if t != [] {
      WindowsTile(Front(t), startMs);
    }
  }

  lemma RunTilesTime(env: Env, batches: seq<seq<Event>>)
    requires PossibleRun(env, batches)
    ensures var core := Run(env, batches).core;
            && core.counters.startMs == env.clock(0)
            && core.counters.startMs + ReportedTime(core.world.trace) == core.counters.lastReportMs
            && ReportedMessages(core.world.trace) == core.counters.lastReportStatusReceived <= core.counters.statusReceived
  {
    RunHealthy(env, batches);
    var s := Run(env, batches);
    HealthyParts(env, s);
    WindowsTile(s.core.world.trace, s.core.counters.startMs);
    CountsAreOrdered(s.core.world.trace);
    hide Statuses, ReportedTime, ReportedMessages, LastById, Framed, Settled, Linked, ViewersWatch;
  }

  /** Totals never decrease along the trace, so neither do the reported ones. */
  lemma {:induction false} TotalsNeverDecrease(t: seq<Entry>, i: nat)
    requires i <= |t|
    ensures Opens(t[..i]) <= Opens(t) && Closes(t[..i]) <= Closes(t) && |Statuses(t[..i])| <= |Statuses(t)|
  {
    if i == |t| {
      assert t[..i] == t;
    } else {
      TotalsNeverDecrease(Front(t), i);
      assert Front(t)[..i] == t[..i];
    }
  }

  lemma LaterReportsCountMore(t: seq<Entry>, i: nat, j: nat)
    requires i < j < |t| && t[i].Reported? && t[j].Reported?
    requires Balances(t[..i], t[i]) && Balances(t[..j], t[j])
    ensures t[i].metrics.accepted <= t[j].metrics.accepted
    ensures t[i].metrics.disconnected <= t[j].metrics.disconnected
    ensures t[i].metrics.received <= t[j].metrics.received
  {
    hide Statuses, Opens, Closes, LastById;
    TotalsNeverDecrease(t[..j], i);
    assert t[..j][..i] == t[..i];
  }
}
