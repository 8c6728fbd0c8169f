/**
 One server and any number of load generator clients, joined by FIFO byte
 channels, together with arbitrary other connections. A channel is a prefix
 relation between histories: what one side has read is a prefix of what the
 other side has written, cut anywhere and delayed as long as one likes.
 */
module AckSystem {
  import opened Text
  import opened Decimal
  import opened Fields
  import opened StatusCodec
  import opened LoadgenClient
  import opened ServerSpec
  import opened ServerInvariant
  import opened ServerRuns
  import opened ServerReports
  import opened ServerTheorems

  /** A latency sample: the line it was taken on, when, and the STATUS the client had sent last. */
  datatype Sample = Sample(line: string, readMs: u64, latency: u64, asked: DeviceStatus)

  datatype Peer = Peer(
    client: ClientState,
    conn: Option<nat>,        // its connection at the server, once accepted
    stamps: seq<u64>,         // the time stamp of every STATUS sent, in order
    tail: string,             // bytes of a STATUS that a short write cut off
    inbox: string,            // every byte the client has read
    samples: seq<Sample>,
    gone: bool)               // closed after an error

  datatype System = System(server: State, peers: seq<Peer>, stopped: bool)

  datatype Move =
    | ServerHandles(event: Event)
    | ServerAccepts(fd: int, i: nat)
    | ServerReports
    | ClientConnects(i: nat)
    | ClientSends(i: nat, nowMs: u64, result: LoadgenClient.SendResult)
    | ClientReceives(i: nat, nowMs: u64, chunks: seq<string>, end: RecvEnd)

  /** What the `k`-th STATUS of a client says. */
  function Said(peer: Peer, k: nat): DeviceStatus
    requires k < |peer.stamps|
  {
    StatusSaid(peer.client.index, Wrap(k + 1), peer.stamps[k])
  }

  /** The STATUS lines a client has sent, in order. */
  function Outbox(peer: Peer): seq<string> {
    seq(|peer.stamps|, k requires 0 <= k < |peer.stamps| =>
      StatusText(peer.client.index, Wrap(k + 1), peer.stamps[k]))
  }

  function SampleLines(samples: seq<Sample>): seq<string> {
    seq(|samples|, k requires 0 <= k < |samples| => samples[k].line)
  }

  function Consumed(r: AckOutcome, chunks: seq<string>): seq<string>
    requires r.GotAck? ==> r.used <= |chunks|
  {
    if r.GotAck? then chunks[..r.used] else chunks
  }

  function Receives(peer: Peer, nowMs: u64, chunks: seq<string>, end: RecvEnd): Peer {
    ReceiveAckUses(peer.client, chunks, end);
    var r := ReceiveAck(peer.client, chunks, end);
    peer.(
      client := r.client,
      inbox := peer.inbox + Join(Consumed(r, chunks)),
      samples := if r.GotAck?
                 then peer.samples + [Sample(r.line, nowMs, Wrap(nowMs - r.client.sentMs),
                                             StatusSaid(r.client.index, r.client.sequence, r.client.sentMs))]
                 else peer.samples,
      gone := r.Broken?)
  }

  function Cut(line: string, count: nat): string { line[..Min(count, if line == "" then 0 else |line| - 1)] }

  /** The client's record after an attempt to send. */
  function Sends(peer: Peer, nowMs: u64, result: LoadgenClient.SendResult): Peer {
    match SendStatus(peer.client, nowMs, result)
    case Went(c) => peer.(client := c, stamps := peer.stamps + [nowMs])
    case Blocked(c) => peer.(client := c)
    case Thrown(c) =>
      peer.(tail := if result.Short? then Cut(StatusText(c.index, c.sequence, c.sentMs), result.count) else "")
  }

  function Apply(env: Env, y: System, move: Move): System {
    match move
    case ServerHandles(event) => y.(server := Step(env, y.server, event))
    case ServerAccepts(fd, i) =>
      if i < |y.peers| then
        System(Step(env, y.server, Incoming([fd])),
               y.peers[i := y.peers[i].(conn := Some(y.server.core.counters.totalAccepted))], y.stopped)
      else y
    case ServerReports => y.(server := ReportIfDue(env, y.server))
    case ClientConnects(i) =>
      if i < |y.peers| then y.(peers := y.peers[i := y.peers[i].(client := y.peers[i].client.(phase := Ready))]) else y
    case ClientSends(i, nowMs, result) =>
      if i < |y.peers| then
        var peer := y.peers[i];
        System(y.server, y.peers[i := Sends(peer, nowMs, result)],
               y.stopped || SendStatus(peer.client, nowMs, result).Thrown?)
      else y
    case ClientReceives(i, nowMs, chunks, end) =>
      if i < |y.peers| then y.(peers := y.peers[i := Receives(y.peers[i], nowMs, chunks, end)]) else y
  }

  /** FIFO channels in both directions, for every accepted client. */
  ghost predicate Fifo(w: World, peer: Peer) {
    match peer.conn
    case None => peer.inbox == ""
    case Some(c) =>
      c in w.conns ==>
        && w.conns[c].received <= Join(Outbox(peer)) + peer.tail
        && peer.inbox <= DeliveredAll(w.conns[c].sends)
  }

  ghost predicate Possible(env: Env, y: System, move: Move) {
    && (match move
        case ServerHandles(event) => Enabled(y.server, event)
        case ServerAccepts(fd, i) =>
          i < |y.peers| && y.peers[i].conn.None? && FreshDescriptors(y.server.core.world, [fd])
        case ServerReports => true
        case ClientConnects(i) => i < |y.peers| && !y.stopped && !y.peers[i].gone && y.peers[i].client.phase == Connecting
        case ClientSends(i, _, _) => i < |y.peers| && !y.stopped && !y.peers[i].gone && y.peers[i].client.phase == Ready
        case ClientReceives(i, _, _, _) =>
          i < |y.peers| && !y.stopped && !y.peers[i].gone && y.peers[i].client.phase == WaitingAck)
    && (forall i :: 0 <= i < |y.peers| ==> Fifo(Apply(env, y, move).server.core.world, Apply(env, y, move).peers[i]))
  }

  // ---- the invariant ----

  /** Stop and wait: at most one STATUS is unanswered, and the unread bytes hold no complete line. */
  ghost predicate StopAndWait(peer: Peer) {
    var n, m := |peer.stamps|, |peer.samples|;
    && peer.client.sequence == Wrap(n)
    && (match peer.client.phase
        case Connecting => n == 0 && m == 0
        case Ready => m == n
        case WaitingAck => m + 1 == n && peer.client.sentMs == peer.stamps[n - 1])
    && peer.inbox == Join(SampleLines(peer.samples)) + peer.client.receiveBuffer
    && Free(peer.client.receiveBuffer, '\n')
    && Free(peer.tail, '\n')
    && (forall k :: 0 <= k < m ==> peer.samples[k].asked == Said(peer, k))
    && (forall k :: 0 <= k < m ==> peer.samples[k].latency == Wrap(peer.samples[k].readMs - peer.stamps[k]))
  }

  /** Each sample was taken on the whole of one acknowledgement, the one for the STATUS of the same rank. */
  ghost predicate Answered(w: World, peer: Peer) {
    match peer.conn
    case None => peer.samples == []
    case Some(c) =>
      && c in w.conns
      && |peer.samples| <= |w.conns[c].sends| && |peer.samples| <= |peer.stamps|
      && (forall k :: 0 <= k < |peer.samples| ==> AnsweredAt(w.conns[c].sends[k], peer, k))
  }

  ghost predicate AnsweredAt(attempt: Attempt, peer: Peer, k: nat)
    requires k < |peer.samples| && k < |peer.stamps|
  {
    && attempt.msg.Ack? && attempt.msg.status == Said(peer, k)
    && Delivered(attempt) == Bytes(attempt.msg) == peer.samples[k].line
  }

  ghost predicate OwnConnections(y: System) {
    forall i, j :: 0 <= i < j < |y.peers| && y.peers[i].conn.Some? ==> y.peers[i].conn != y.peers[j].conn
  }

  ghost predicate SystemInv(env: Env, y: System) {
    && Healthy(env, y.server)
    && OwnConnections(y)
    && (forall i :: 0 <= i < |y.peers| ==>
          StopAndWait(y.peers[i]) && Answered(y.server.core.world, y.peers[i]) && Fifo(y.server.core.world, y.peers[i]))
  }

  // ---- what the server owes to a load generator client ----

  lemma StatusTextIsNotHello(index: nat, sequence: u64, sentMs: u64)
    ensures !IsHello(StatusText(index, sequence, sentMs))
  {
    hide Render;
    assert StatusText(index, sequence, sentMs)[0] == 'S';
  }

  lemma OutboxLines(peer: Peer)
    ensures forall line :: line in Outbox(peer) ==> IsLine(line)
    ensures forall k :: 0 <= k < |peer.stamps| ==>
              Accepted(Outbox(peer)[k]) == Some(Said(peer, k)) && !IsViewerHello(Outbox(peer)[k])
  {
    hide StatusText, IsLine, StatusOf, IsHello;
    forall k | 0 <= k < |peer.stamps|
      ensures Accepted(Outbox(peer)[k]) == Some(Said(peer, k)) && IsLine(Outbox(peer)[k])
      ensures !IsViewerHello(Outbox(peer)[k])
    {
      StatusRoundTrip(peer.client.index, Wrap(k + 1), peer.stamps[k]);
      StatusTextIsNotHello(peer.client.index, Wrap(k + 1), peer.stamps[k]);
    }
  }

  /** The lines the server has handled for a client are the first STATUS lines it sent. */
  lemma HandledAreSent(env: Env, s: State, peer: Peer)
    requires Healthy(env, s) && Free(peer.tail, '\n')
    requires peer.conn.Some? && peer.conn.value in s.core.world.conns && Fifo(s.core.world, peer)
    ensures Handled(s.core.world.trace, peer.conn.value) <= Outbox(peer)
  {
    hide Lines, Rest, Timed, CoreInv, Handled, StatusText, IsLine;
    var w, c := s.core.world, peer.conn.value;
    OutboxLines(peer);
    LinesOfPrefix(w.conns[c].received, Outbox(peer), peer.tail);
    if IsOpen(w, c) {
      var fd :| fd in w.descriptors && w.descriptors[fd] == c;
      assert FramedAt(w, c, s.buffers[fd]);
    }
  }

  lemma {:induction false} AcksForStatuses(peer: Peer, lines: seq<string>)
    requires lines <= Outbox(peer)
    ensures |AcksFor(lines)| == |lines|
    ensures forall j :: 0 <= j < |lines| ==> AcksFor(lines)[j] == Ack(Said(peer, j), 0)
  {
    hide StatusText, Accepted;
    OutboxLines(peer);
    if lines != [] {
      AcksForStatuses(peer, lines[..|lines| - 1]);
    }
  }

  /** Whatever else goes on at the server, it offers a client one ACK per STATUS received, in order, and nothing else. */
  lemma OffersOwnAcks(env: Env, s: State, peer: Peer)
    requires Healthy(env, s) && Free(peer.tail, '\n')
    requires peer.conn.Some? && peer.conn.value in s.core.world.conns && Fifo(s.core.world, peer)
    ensures var sends := s.core.world.conns[peer.conn.value].sends;
            && |sends| <= |peer.stamps|
            && forall j :: 0 <= j < |sends| ==> sends[j].msg.Ack? && sends[j].msg.status == Said(peer, j)
  {
    var w, c := s.core.world, peer.conn.value;
    var sends, lines := w.conns[c].sends, Handled(w.trace, c);
    HandledAreSent(env, s, peer);
    OutboxLines(peer);
    assert Offered(sends) == Expect(w.trace, c);
    hide Healthy, StatusText, Expect, Handled, Offered, AcksFor, IsViewerHello, Fifo;
    OnlyOwnAcks(w.trace, c);
    AcksForStatuses(peer, lines);
    OfferedLength(sends);
    forall j | 0 <= j < |sends| ensures sends[j].msg.Ack? && sends[j].msg.status == Said(peer, j) {
      OfferedAt(sends, j);
    }
  }

  // ---- reading one acknowledgement ----

  /** Reading within a single line: the wait ends exactly when the whole line has been read. */
  lemma {:induction false} ReadsOneLine(client: ClientState, chunks: seq<string>, end: RecvEnd, line: string)
    requires IsLine(line) && IsAckLine(line) && Free(client.receiveBuffer, '\n')
    requires ReceiveAck(client, chunks, end).GotAck? ==> ReceiveAck(client, chunks, end).used <= |chunks|
    requires client.receiveBuffer + Join(Consumed(ReceiveAck(client, chunks, end), chunks)) <= line
    ensures var r := ReceiveAck(client, chunks, end); var read := client.receiveBuffer + Join(Consumed(r, chunks));
            if r.GotAck? then r.line == line == read && r.client.receiveBuffer == ""
            else r.client.receiveBuffer == read && Free(read, '\n')
    decreases |chunks|
  {
    hide Find, Free, IsLine, IsAckLine, AfterChunk;
    var r := ReceiveAck(client, chunks, end);
    if chunks == [] {
      assert client.receiveBuffer + "" == client.receiveBuffer;
    } else {
      var buffer := client.receiveBuffer + chunks[0];
      var (next, taken) := AfterChunk(client, chunks[0]);
      var used := Consumed(r, chunks);
      ReceiveAckUses(client, chunks, end);
      assert Join(used) == chunks[0] + Join(used[1..]);
      assert client.receiveBuffer + Join(used) == buffer + Join(used[1..]);
      AfterChunkWithin(client, chunks[0], line);
      if taken.Some? {
        assert used == [chunks[0]];
        JoinOne(chunks[0]);
      } else {
        ReceiveAckUses(next, chunks[1..], end);
        assert Consumed(ReceiveAck(next, chunks[1..], end), chunks[1..]) == used[1..];
        ReadsOneLine(next, chunks[1..], end, line);
      }
    }
  }

  lemma AfterChunkWithin(client: ClientState, chunk: string, line: string)
    requires IsLine(line) && client.receiveBuffer + chunk <= line
    ensures var (next, taken) := AfterChunk(client, chunk); var buffer := client.receiveBuffer + chunk;
            if taken.Some? then taken.value == line == buffer && next.receiveBuffer == ""
            else next.receiveBuffer == buffer && Free(buffer, '\n')
  {
    var buffer := client.receiveBuffer + chunk;
    if Find(buffer, '\n') < |buffer| {
      PrefixWithNewline(buffer, line);
    }
  }

  lemma PrefixWithNewline(buffer: string, line: string)
    requires IsLine(line) && buffer <= line && Find(buffer, '\n') < |buffer|
    ensures buffer == line && Find(buffer, '\n') + 1 == |buffer|
    ensures buffer[..Find(buffer, '\n') + 1] == line && buffer[Find(buffer, '\n') + 1..] == ""
  {
    var k := Find(buffer, '\n');
    assert line[k] == '\n';
    assert forall i :: 0 <= i < |line| - 1 ==> line[i] == line[..|line| - 1][i];
  }

  // ---- every move keeps the invariant ----

  lemma AnsweredGrown(before: World, after: World, peer: Peer)
    requires Answered(before, peer) && Grown(before.conns, after.conns)
    ensures Answered(after, peer)
  {
    hide AnsweredAt;
    if peer.conn.Some? {
      var a, b := before.conns[peer.conn.value].sends, after.conns[peer.conn.value].sends;
      assert a <= b;
      forall k | 0 <= k < |peer.samples| ensures AnsweredAt(b[k], peer, k) {
        assert a[k] == b[k];
      }
    }
  }

  lemma ServerMoveInv(env: Env, y: System, server: State)
    requires SystemInv(env, y) && Healthy(env, server)
    requires Grown(y.server.core.world.conns, server.core.world.conns)
    requires forall i :: 0 <= i < |y.peers| ==> Fifo(server.core.world, y.peers[i])
    ensures SystemInv(env, y.(server := server))
  {
    hide Healthy, Fifo, StopAndWait, Answered, Grown;
    forall i | 0 <= i < |y.peers| ensures Answered(server.core.world, y.peers[i]) {
      AnsweredGrown(y.server.core.world, server.core.world, y.peers[i]);
    }
  }

  lemma AcceptAtServer(env: Env, s: State, fd: int)
    requires Monotone(env) && Healthy(env, s) && FreshDescriptors(s.core.world, [fd])
    ensures var after := Step(env, s, Incoming([fd])); var c := s.core.counters.totalAccepted;
            && Healthy(env, after) && Grown(s.core.world.conns, after.core.world.conns)
            && c !in s.core.world.conns && c in after.core.world.conns
  {
    assert AcceptAll(s, [fd]) == Accept(s, fd) by {
      assert [fd][..0] == [] && AcceptAll(s, []) == s;
    }
    HealthyParts(env, s);
    StepHealthy(env, s, Incoming([fd]));
    hide Healthy, Timed;
    AcceptInv(s, fd);
    CoreIsLinked(s.core);
  }

  lemma AcceptMoveInv(env: Env, y: System, fd: int, i: nat)
    requires Monotone(env) && SystemInv(env, y) && Possible(env, y, ServerAccepts(fd, i))
    ensures SystemInv(env, Apply(env, y, ServerAccepts(fd, i)))
  {
    hide Healthy, Fifo, StopAndWait, Grown, Step, FreshDescriptors;
    var s, c := y.server, y.server.core.counters.totalAccepted;
    var after := Apply(env, y, ServerAccepts(fd, i));
    AcceptAtServer(env, s, fd);
    forall j | 0 <= j < |after.peers|
      ensures StopAndWait(after.peers[j]) && Answered(after.server.core.world, after.peers[j])
    {
      if j == i {
        SameStopAndWait(y.peers[i], after.peers[i]);
        assert Answered(s.core.world, y.peers[i]);
      } else {
        AnsweredGrown(s.core.world, after.server.core.world, y.peers[j]);
      }
    }
    forall j | 0 <= j < |y.peers| ensures y.peers[j].conn != Some(c) {
      assert Answered(s.core.world, y.peers[j]);
    }
  }

  lemma SameStopAndWait(a: Peer, b: Peer)
    requires StopAndWait(a) && b == a.(conn := b.conn)
    ensures StopAndWait(b)
  {
    assert forall k :: 0 <= k < |a.samples| ==> Said(a, k) == Said(b, k);
  }

  /** A client's move touches its own record only. */
  lemma ClientMoveInv(env: Env, y: System, i: nat, peer: Peer, stopped: bool)
    requires SystemInv(env, y) && i < |y.peers| && peer.conn == y.peers[i].conn
    requires StopAndWait(peer) && Answered(y.server.core.world, peer) && Fifo(y.server.core.world, peer)
    ensures SystemInv(env, System(y.server, y.peers[i := peer], stopped))
  {
    hide Healthy, Fifo, StopAndWait, Answered;
  }

  lemma SendsStopAndWait(peer: Peer, nowMs: u64, result: LoadgenClient.SendResult)
    requires StopAndWait(peer) && peer.client.phase == Ready
    ensures StopAndWait(Sends(peer, nowMs, result))
  {
    hide StatusText, StatusSaid;
    var after := Sends(peer, nowMs, result);
    WrapNext(|peer.stamps|);
    hide Wrap, Free;
    if result.Short? {
      var c := SendStatus(peer.client, nowMs, result).client;
      StatusRoundTripLine(c.index, c.sequence, c.sentMs);
      CutIsFree(StatusText(c.index, c.sequence, c.sentMs), result.count);
    } else if result.HardError? {
      NothingIsFree('\n');
    }
    forall k | 0 <= k < |peer.samples| ensures after.samples[k].asked == Said(after, k) {
      assert peer.samples[k].asked == Said(peer, k);
    }
  }

  lemma NothingIsFree(c: char)
    ensures Free("", c)
  {
  }

  /** Sending one more STATUS, being refused, or failing. */
  lemma SendMoveInv(env: Env, y: System, i: nat, nowMs: u64, result: LoadgenClient.SendResult)
    requires SystemInv(env, y) && Possible(env, y, ClientSends(i, nowMs, result))
    ensures SystemInv(env, Apply(env, y, ClientSends(i, nowMs, result)))
  {
    hide Fifo, Healthy, StatusText, StopAndWait, Answered, Cut;
    var after := Apply(env, y, ClientSends(i, nowMs, result));
    var peer := Sends(y.peers[i], nowMs, result);
    assert after.peers[i] == peer;
    assert after == System(y.server, y.peers[i := peer], after.stopped);
    SendsStopAndWait(y.peers[i], nowMs, result);
    SameAnswers(y.server.core.world, y.peers[i], peer);
    ClientMoveInv(env, y, i, peer, after.stopped);
  }

  lemma StatusRoundTripLine(index: nat, sequence: u64, sentMs: u64)
    ensures IsLine(StatusText(index, sequence, sentMs))
  {
    StatusRoundTrip(index, sequence, sentMs);
  }

  lemma CutIsFree(line: string, count: nat)
    requires IsLine(line)
    ensures Free(Cut(line, count), '\n')
  {
    var front := line[..|line| - 1];
    forall k | 0 <= k < |Cut(line, count)| ensures Cut(line, count)[k] != '\n' {
      assert Cut(line, count)[k] == front[k];
    }
  }

  lemma SameAnswers(w: World, before: Peer, after: Peer)
    requires Answered(w, before) && after.conn == before.conn && after.samples == before.samples
    requires before.stamps <= after.stamps && after.client.index == before.client.index
    ensures Answered(w, after)
  {
    if before.conn.Some? {
      var sends := w.conns[before.conn.value].sends;
      forall k | 0 <= k < |after.samples| ensures AnsweredAt(sends[k], after, k) {
        assert AnsweredAt(sends[k], before, k);
        assert Said(after, k) == Said(before, k);
      }
    }
  }

  // ---- reading acknowledgements ----

  lemma AckKeys()
    ensures KeyText("device_id") && KeyText("seq") && KeyText("server_ms")
  {
  }

  lemma AckTextIsLine(status: DeviceStatus, ms: u64)
    requires ValueText(status.deviceId)
    ensures IsLine(AckText(status, ms)) && IsAckLine(AckText(status, ms))
  {
    hide ToString, Render, IsLine, KeyText, ValueText;
    AckKeys();
    NumberIsValueText(status.sequence);
    NumberIsValueText(ms);
    RenderedIsLine("ACK", AckPairs(status, ms));
    assert Render(AckPairs(status, ms)) != "" && Render(AckPairs(status, ms))[0] == ' ' by {
      AckRenderStarts(status, ms);
    }
    assert AckText(status, ms)[..4] == "ACK ";
  }

  lemma AckRenderStarts(status: DeviceStatus, ms: u64)
    ensures Render(AckPairs(status, ms)) != "" && Render(AckPairs(status, ms))[0] == ' '
  {
    hide ToString;
  }

  lemma DeliveredPrefix(a: Attempt)
    ensures Delivered(a) <= Bytes(a.msg)
  {
    hide Bytes;
  }

  /** The bytes delivered by whole acknowledgements are the sample lines; at most one more, perhaps partial, follows. */
  lemma {:induction false} DeliveredSamples(sends: seq<Attempt>, samples: seq<Sample>)
    requires |samples| <= |sends|
    requires forall k :: 0 <= k < |samples| ==> Delivered(sends[k]) == samples[k].line
    ensures DeliveredAll(sends[..|samples|]) == Join(SampleLines(samples))
  {
    hide Delivered;
    if samples == [] {
      assert sends[..0] == [];
    } else {
      var m := |samples| - 1;
      DeliveredSamples(sends, samples[..m]);
      assert sends[..m + 1][..m] == sends[..m];
      assert SampleLines(samples) == SampleLines(samples[..m]) + [samples[m].line];
      JoinAppend(SampleLines(samples[..m]), [samples[m].line]);
      JoinOne(samples[m].line);
    }
  }

  lemma DeliveredOneMore(sends: seq<Attempt>, m: nat)
    requires |sends| == m + 1
    ensures DeliveredAll(sends) == DeliveredAll(sends[..m]) + Delivered(sends[m])
  {
  }

  lemma CancelPrefix(a: string, b: string, c: string)
    requires a + b <= a + c
    ensures b <= c
  {
    assert (a + b)[|a|..] == b && (a + c)[|a|..] == c;
    assert (a + c)[..|a + b|][|a|..] == c[..|b|];
  }

  /** After the sample lines, at most one acknowledgement has been put on the wire, and reading stays within it. */
  lemma ReadsWithinNextAck(sends: seq<Attempt>, samples: seq<Sample>, said: DeviceStatus, read: string)
    returns (line: string, ms: u64)
    requires |samples| <= |sends| <= |samples| + 1 && ValueText(said.deviceId)
    requires forall k :: 0 <= k < |samples| ==> Delivered(sends[k]) == samples[k].line
    requires |samples| < |sends| ==> sends[|samples|].msg.Ack? && sends[|samples|].msg.status == said
    requires Join(SampleLines(samples)) + read <= DeliveredAll(sends)
    ensures IsLine(line) && IsAckLine(line) && line == AckText(said, ms) && read <= line
    ensures read == line ==> |samples| < |sends| && Delivered(sends[|samples|]) == Bytes(sends[|samples|].msg) == line
  {
    hide Delivered, AckText, IsLine, IsAckLine, ValueText;
    var m := |samples|;
    var lines := Join(SampleLines(samples));
    DeliveredSamples(sends, samples);
    if |sends| == m {
      assert sends[..m] == sends && lines + "" == lines;
      CancelPrefix(lines, read, "");
      ms := 0;
    } else {
      DeliveredOneMore(sends, m);
      DeliveredPrefix(sends[m]);
      CancelPrefix(lines, read, Delivered(sends[m]));
      ms := sends[m].msg.serverMs;
    }
    line := AckText(said, ms);
    AckTextIsLine(said, ms);
    LineIsNotEmpty(line);
  }

  /** What a waiting client can read next lies within the one acknowledgement it waits for. */
  lemma ReadsWithinOneAck(env: Env, s: State, peer: Peer, more: string) returns (line: string, ms: u64)
    requires Healthy(env, s) && StopAndWait(peer) && Answered(s.core.world, peer) && Fifo(s.core.world, peer)
    requires peer.client.phase == WaitingAck && peer.conn.Some?
    requires peer.inbox + more <= DeliveredAll(s.core.world.conns[peer.conn.value].sends)
    ensures IsLine(line) && IsAckLine(line) && line == AckText(Said(peer, |peer.samples|), ms)
    ensures peer.client.receiveBuffer + more <= line
    ensures peer.client.receiveBuffer + more == line ==>
              var sends := s.core.world.conns[peer.conn.value].sends; var m := |peer.samples|;
              m < |sends| && Delivered(sends[m]) == Bytes(sends[m].msg) == line && sends[m].msg.Ack?
              && sends[m].msg.status == Said(peer, m)
  {
    hide Healthy, Fifo, Delivered, DeliveredAll, StatusText, AckText, IsLine, IsAckLine, Said, SampleLines, Bytes;
    var m := |peer.samples|;
    var sends := s.core.world.conns[peer.conn.value].sends;
    OffersOwnAcks(env, s, peer);
    forall k | 0 <= k < m ensures Delivered(sends[k]) == peer.samples[k].line {
      assert AnsweredAt(sends[k], peer, k);
    }
    SaidIsNamed(peer, m);
    assert peer.inbox + more == Join(SampleLines(peer.samples)) + (peer.client.receiveBuffer + more);
    line, ms := ReadsWithinNextAck(sends, peer.samples, Said(peer, m), peer.client.receiveBuffer + more);
  }

  lemma LineIsNotEmpty(line: string)
    requires IsLine(line)
    ensures line != ""
  {
  }

  lemma SaidIsNamed(peer: Peer, k: nat)
    requires k < |peer.stamps|
    ensures ValueText(Said(peer, k).deviceId)
  {
    DeviceIdIsValueText(peer.client.index);
  }

  /** Reading: an ACK line ends the wait exactly when it is the whole acknowledgement of the last STATUS. */
  lemma ReceivesInv(env: Env, s: State, peer: Peer, nowMs: u64, chunks: seq<string>, end: RecvEnd)
    requires Healthy(env, s) && StopAndWait(peer) && Answered(s.core.world, peer) && Fifo(s.core.world, peer)
    requires peer.client.phase == WaitingAck && Fifo(s.core.world, Receives(peer, nowMs, chunks, end))
    ensures StopAndWait(Receives(peer, nowMs, chunks, end))
    ensures Answered(s.core.world, Receives(peer, nowMs, chunks, end))
  {
    hide Healthy, StatusText, AckText, IsLine, IsAckLine, Delivered, DeliveredAll, ReceiveAck, Free, Wrap;
    var after := Receives(peer, nowMs, chunks, end);
    var r := ReceiveAck(peer.client, chunks, end);
    ReceiveAckUses(peer.client, chunks, end);
    var data := Join(Consumed(r, chunks));
    if peer.conn.None? {
      assert peer.inbox == "" && peer.inbox + data == "";
      ReadsNothing(peer.client, chunks, end);
      SameRank(peer, after);
    } else {
      var line, ms := ReadsWithinOneAck(env, s, peer, data);
      ReadsOneLine(peer.client, chunks, end, line);
      if r.GotAck? {
        SampleTaken(s.core.world, peer, after, line, r.client, nowMs);
      } else {
        assert peer.inbox + data == Join(SampleLines(peer.samples)) + (peer.client.receiveBuffer + data);
        SameRank(peer, after);
        SameAnswers(s.core.world, peer, after);
      }
    }
  }

  lemma SameRank(before: Peer, after: Peer)
    requires before.client.index == after.client.index && before.stamps == after.stamps
    ensures forall k :: 0 <= k < |before.stamps| ==> Said(after, k) == Said(before, k)
  {
  }

  /** Before the server has accepted the connection there is nothing to read. */
  lemma {:induction false} ReadsNothing(client: ClientState, chunks: seq<string>, end: RecvEnd)
    requires Free(client.receiveBuffer, '\n')
    requires ReceiveAck(client, chunks, end).GotAck? ==> ReceiveAck(client, chunks, end).used <= |chunks|
    requires Join(Consumed(ReceiveAck(client, chunks, end), chunks)) == ""
    ensures var r := ReceiveAck(client, chunks, end); !r.GotAck? && r.client.receiveBuffer == client.receiveBuffer
    decreases |chunks|
  {
    if chunks != [] {
      var r := ReceiveAck(client, chunks, end);
      var used := Consumed(r, chunks);
      ReceiveAckUses(client, chunks, end);
      assert Join(used) == chunks[0] + Join(used[1..]);
      assert |Join(used)| == |chunks[0]| + |Join(used[1..])|;
      assert chunks[0] == "" && client.receiveBuffer + "" == client.receiveBuffer;
      FindNothing(client.receiveBuffer, '\n');
      var (next, taken) := AfterChunk(client, chunks[0]);
      ReceiveAckUses(next, chunks[1..], end);
      assert Consumed(ReceiveAck(next, chunks[1..], end), chunks[1..]) == used[1..];
      ReadsNothing(next, chunks[1..], end);
    }
  }

  lemma SampleTaken(w: World, before: Peer, after: Peer, line: string, client: ClientState, nowMs: u64)
    requires StopAndWait(before) && Answered(w, before) && before.client.phase == WaitingAck && before.conn.Some?
    requires client == before.client.(receiveBuffer := "", phase := Ready)
    requires var sends, m := w.conns[before.conn.value].sends, |before.samples|;
             m < |sends| && sends[m].msg.Ack? && sends[m].msg.status == Said(before, m)
             && Delivered(sends[m]) == Bytes(sends[m].msg) == line
    requires exists data :: before.client.receiveBuffer + data == line && after.inbox == before.inbox + data
    requires after == before.(client := client, inbox := after.inbox, gone := after.gone,
               samples := before.samples + [Sample(line, nowMs, Wrap(nowMs - client.sentMs),
                                                   StatusSaid(client.index, client.sequence, client.sentMs))])
    ensures StopAndWait(after) && Answered(w, after)
  {
    hide StatusText, StatusSaid, Bytes, Delivered, Wrap;
    var m := |before.samples|;
    var data :| before.client.receiveBuffer + data == line && after.inbox == before.inbox + data;
    var lines := SampleLines(before.samples);
    assert SampleLines(after.samples) == lines + [line];
    JoinAppend(lines, [line]);
    JoinOne(line);
    assert after.inbox == Join(lines) + line;
    assert Join(lines) + line + "" == Join(lines) + line;
    NothingIsFree('\n');
    SameRank(before, after);
    assert after.samples[m].asked == Said(after, m);
    var sends := w.conns[before.conn.value].sends;
    forall k | 0 <= k < |after.samples| ensures AnsweredAt(sends[k], after, k) {
      if k < m {
        assert AnsweredAt(sends[k], before, k);
      }
    }
  }

  lemma ReceiveMoveInv(env: Env, y: System, i: nat, nowMs: u64, chunks: seq<string>, end: RecvEnd)
    requires SystemInv(env, y) && Possible(env, y, ClientReceives(i, nowMs, chunks, end))
    ensures SystemInv(env, Apply(env, y, ClientReceives(i, nowMs, chunks, end)))
  {
    hide Fifo, Healthy, StopAndWait, Answered, Receives;
    var peer := y.peers[i];
    var after := Receives(peer, nowMs, chunks, end);
    assert Apply(env, y, ClientReceives(i, nowMs, chunks, end)).peers[i] == after;
    ReceivesInv(env, y.server, peer, nowMs, chunks, end);
    ReceivesKeepsConn(peer, nowMs, chunks, end);
    ClientMoveInv(env, y, i, after, y.stopped);
  }

  lemma ReceivesKeepsConn(peer: Peer, nowMs: u64, chunks: seq<string>, end: RecvEnd)
    ensures Receives(peer, nowMs, chunks, end).conn == peer.conn
  {
  }

  // ---- whole runs ----

  lemma ServerHandlesInv(env: Env, y: System, move: Move)
    requires Monotone(env) && SystemInv(env, y) && Possible(env, y, move)
    requires move.ServerHandles? || move.ServerReports?
    ensures SystemInv(env, Apply(env, y, move))
  {
    hide Healthy, Fifo, StopAndWait, Answered, Grown, Step, Enabled, ReportIfDue;
    var after := Apply(env, y, move);
    if move.ServerHandles? {
      StepHealthy(env, y.server, move.event);
    } else {
      ReportHealthy(env, y.server);
    }
    forall i | 0 <= i < |y.peers| ensures Fifo(after.server.core.world, y.peers[i]) {
      assert Fifo(after.server.core.world, after.peers[i]);
    }
    ServerMoveInv(env, y, after.server);
  }

  lemma ConnectMoveInv(env: Env, y: System, i: nat)
    requires SystemInv(env, y) && Possible(env, y, ClientConnects(i))
    ensures SystemInv(env, Apply(env, y, ClientConnects(i)))
  {
    hide Fifo, Healthy, Answered, StatusText;
    var peer := Apply(env, y, ClientConnects(i)).peers[i];
    SameRank(y.peers[i], peer);
    SameAnswers(y.server.core.world, y.peers[i], peer);
    assert StopAndWait(y.peers[i]);
    ClientMoveInv(env, y, i, peer, y.stopped);
  }

  lemma MoveInv(env: Env, y: System, move: Move)
    requires Monotone(env) && SystemInv(env, y) && Possible(env, y, move)
    ensures SystemInv(env, Apply(env, y, move))
  {
    hide SystemInv, Possible, Apply;
    match move
    case ServerHandles(_) => ServerHandlesInv(env, y, move);
    case ServerReports => ServerHandlesInv(env, y, move);
    case ServerAccepts(fd, i) => AcceptMoveInv(env, y, fd, i);
    case ClientConnects(i) => ConnectMoveInv(env, y, i);
    case ClientSends(i, nowMs, result) => SendMoveInv(env, y, i, nowMs, result);
    case ClientReceives(i, nowMs, chunks, end) => ReceiveMoveInv(env, y, i, nowMs, chunks, end);
  }

  /** A server that has just started and `n` clients that have not connected. */
  function Start(env: Env, n: nat): System {
    System(Init(env), seq(n, (i: nat) => Peer(NewClient(i, i), None, [], "", "", [], false)), false)
  }

  function RunMoves(env: Env, n: nat, moves: seq<Move>): System {
    if moves == [] then Start(env, n) else Apply(env, RunMoves(env, n, moves[..|moves| - 1]), moves[|moves| - 1])
  }

  ghost predicate PossibleMoves(env: Env, n: nat, moves: seq<Move>) {
    Monotone(env) && forall k :: 0 <= k < |moves| ==> Possible(env, RunMoves(env, n, moves[..k]), moves[k])
  }

  lemma StartInv(env: Env, n: nat)
    requires Monotone(env)
    ensures SystemInv(env, Start(env, n))
  {
    InitHealthy(env);
    NothingIsFree('\n');
    hide Healthy;
    var y := Start(env, n);
    forall i | 0 <= i < n ensures StopAndWait(y.peers[i]) {
      assert SampleLines([]) == [] && Join([]) + "" == "";
    }
  }

  lemma ApplyKeepsIndices(env: Env, y: System, move: Move)
    ensures |Apply(env, y, move).peers| == |y.peers|
    ensures forall i :: 0 <= i < |y.peers| ==> Apply(env, y, move).peers[i].client.index == y.peers[i].client.index
  {
    hide Step, ReportIfDue, ReceiveAck, StatusText;
    if move.ClientReceives? && move.i < |y.peers| {
      ReceiveAckUses(y.peers[move.i].client, move.chunks, move.end);
    }
  }

  lemma {:induction false} RunInv(env: Env, n: nat, moves: seq<Move>)
    requires PossibleMoves(env, n, moves)
    ensures SystemInv(env, RunMoves(env, n, moves))
    ensures |RunMoves(env, n, moves).peers| == n
    ensures forall i :: 0 <= i < n ==> RunMoves(env, n, moves).peers[i].client.index == i
  {
    hide SystemInv, Possible, Apply;
    if moves == [] {
      StartInv(env, n);
    } else {
      var front := moves[..|moves| - 1];
      forall k | 0 <= k < |front| ensures Possible(env, RunMoves(env, n, front[..k]), front[k]) {
        assert front[..k] == moves[..k];
      }
      RunInv(env, n, front);
      assert moves[..|front|] == front;
      MoveInv(env, RunMoves(env, n, front), moves[|front|]);
      ApplyKeepsIndices(env, RunMoves(env, n, front), moves[|front|]);
    }
  }

  /**
   The k-th sample of client `i` was taken on the ACK naming it and its k-th STATUS,
   the latest one at that moment, and measures the time since that STATUS was stamped.
   */
  ghost predicate SampleIsTrue(peer: Peer, i: nat, k: nat)
    requires k < |peer.samples| && k < |peer.stamps|
  {
    var sample := peer.samples[k];
    && sample.asked == StatusSaid(i, Wrap(k + 1), peer.stamps[k])
    && (exists ms: u64 :: sample.line == AckText(sample.asked, ms))
    && sample.latency == Wrap(sample.readMs - peer.stamps[k])
  }

  /**
   In every run of one server, any number of load generator clients and anybody
   else, with any chunking, delay, truncated or dropped acknowledgement: every
   latency sample belongs to the right message, and a client never has more than
   one STATUS unanswered.
   */
  lemma EverySampleBelongsToTheLatestStatus(env: Env, n: nat, moves: seq<Move>, i: nat)
    requires PossibleMoves(env, n, moves) && i < n
    ensures var y := RunMoves(env, n, moves);
            && i < |y.peers|
            && |y.peers[i].samples| <= |y.peers[i].stamps| <= |y.peers[i].samples| + 1
            && (y.peers[i].client.phase == Ready ==> |y.peers[i].samples| == |y.peers[i].stamps|)
            && forall k :: 0 <= k < |y.peers[i].samples| ==> SampleIsTrue(y.peers[i], i, k)
  {
    RunInv(env, n, moves);
    hide PossibleMoves, RunMoves, Healthy, Fifo, AckText, StatusText, StatusSaid, Wrap;
    var y := RunMoves(env, n, moves);
    var peer := y.peers[i];
    assert StopAndWait(peer) && Answered(y.server.core.world, peer);
    forall k | 0 <= k < |peer.samples| ensures SampleIsTrue(peer, i, k) {
      assert peer.samples[k].asked == Said(peer, k);
      var attempt := y.server.core.world.conns[peer.conn.value].sends[k];
      assert AnsweredAt(attempt, peer, k);
      assert peer.samples[k].line == AckText(Said(peer, k), attempt.msg.serverMs);
    }
  }

  /** The three fields of an acknowledgement: device, sequence number, server time. */
  lemma AckTokens(status: DeviceStatus, ms: u64)
    requires ValueText(status.deviceId)
    ensures Tokens(Render(AckPairs(status, ms)))
         == ["device_id=" + status.deviceId, "seq=" + ToString(status.sequence), "server_ms=" + ToString(ms)]
  {
    hide ToString, Render, Tokens, KeyText, ValueText;
    AckKeys();
    NumberIsValueText(status.sequence);
    NumberIsValueText(ms);
    var none: seq<(string, string)> := [];
    var id, sequence, time := ("device_id", status.deviceId), ("seq", ToString(status.sequence)), ("server_ms", ToString(ms));
    assert AckPairs(status, ms) == [id, sequence, time];
    assert [id, sequence, time][1..] == [sequence, time] && [sequence, time][1..] == [time] && [time][1..] == none;
    TokensRenderedFirst([id, sequence, time]);
    TokensRenderedFirst([sequence, time]);
    TokensRenderedFirst([time]);
    NothingRendered(none);
    assert id.0 + "=" == "device_id=" && sequence.0 + "=" == "seq=" && time.0 + "=" == "server_ms=";
  }

  lemma NothingRendered(pairs: seq<(string, string)>)
    requires pairs == []
    ensures Tokens(Render(pairs)) == []
  {
  }

  /** The text of an acknowledgement is the tag, a space and these fields, and a newline. */
  lemma AckFields(status: DeviceStatus, ms: u64) returns (fields: string)
    requires ValueText(status.deviceId)
    ensures AckText(status, ms) == "ACK " + fields + "\n"
    ensures Tokens(fields)
         == ["device_id=" + status.deviceId, "seq=" + ToString(status.sequence), "server_ms=" + ToString(ms)]
  {
    AckTokens(status, ms);
    AckRenderStarts(status, ms);
    hide ToString, Render, AckPairs, ValueText;
    var rendered := Render(AckPairs(status, ms));
    fields := rendered[1..];
    assert "ACK" + rendered == "ACK " + fields;
  }

  /** The answer to a STATUS carries the clock reading taken for it. */
  lemma AnswerTellsTheTime(env: Env, core: Core, fd: int, status: DeviceStatus) returns (fields: string)
    requires fd in core.world.descriptors && core.world.descriptors[fd] in core.world.conns
    requires status.ackRequested && ValueText(status.deviceId)
    ensures var c := core.world.descriptors[fd]; var sends := Answer(env, core, fd, status).world.conns[c].sends;
            && |sends| == |core.world.conns[c].sends| + 1 && sends[..|sends| - 1] == core.world.conns[c].sends
            && Bytes(sends[|sends| - 1].msg) == "ACK " + fields + "\n"
    ensures Tokens(fields) == ["device_id=" + status.deviceId, "seq=" + ToString(status.sequence),
                               "server_ms=" + ToString(env.clock(core.world.ticks))]
  {
    hide ToString, Render, ValueText, Tokens, AckText;
    fields := AckFields(status, env.clock(core.world.ticks));
    var w := core.world.(ticks := core.world.ticks + 1);
    assert Targets(w, {fd}) == {w.descriptors[fd]};
  }

  /** An acknowledgement's text names one device, one sequence number and one server time. */
  lemma AckTextIdentifies(a: DeviceStatus, aMs: u64, b: DeviceStatus, bMs: u64)
    requires AckText(a, aMs) == AckText(b, bMs) && ValueText(a.deviceId) && ValueText(b.deviceId)
    ensures a.deviceId == b.deviceId && a.sequence == b.sequence && aMs == bMs
  {
    var p, q := AckPairs(a, aMs), AckPairs(b, bMs);
    AckTokens(a, aMs);
    AckTokens(b, bMs);
    hide ToString, Render, Tokens;
    var x, y := AckText(a, aMs), AckText(b, bMs);
    assert x[3..|x| - 1] == Render(p) && y[3..|y| - 1] == Render(q);
    var s, t := Tokens(Render(p)), Tokens(Render(q));
    assert s[0][10..] == a.deviceId && t[0][10..] == b.deviceId;
    assert s[1][4..] == ToString(a.sequence) && t[1][4..] == ToString(b.sequence);
    assert s[2][10..] == ToString(aMs) && t[2][10..] == ToString(bMs);
    PrintedIsInjective(a.sequence, b.sequence);
    PrintedIsInjective(aMs, bMs);
  }
}
