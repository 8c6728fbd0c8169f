/**
 One connection of the load generator: the STATUS line it sends, the rollback
 when the socket is full, and the way it waits for a line starting with `ACK `.
 */
module LoadgenClient {
  import opened Text
  import opened Decimal
  import opened Fields
  import opened StatusCodec

  datatype Phase = Connecting | Ready | WaitingAck

  datatype ClientState = ClientState(
    fd: int,
    index: nat,
    sequence: u64,
    sentMs: u64,
    receiveBuffer: string,
    phase: Phase)

  function NewClient(fd: int, index: nat): ClientState {
    ClientState(fd, index, 0, 0, "", Connecting)
  }

  function DeviceIdFor(index: nat): string { "load-" + ToString(index) }

  /** The fields of the STATUS line in the order they are printed. */
  function StatusPairs(index: nat, sequence: u64, sentMs: u64): seq<(string, string)> {
    [ ("device_id", DeviceIdFor(index)),
      ("state", "OK"),
      ("battery", "87"),
      ("x", ToString(index % 50)),
      ("y", ToString(index / 50 % 50)),
      ("z", ToString(index % 10)),
      ("seq", ToString(sequence)),
      ("sent_ms", ToString(sentMs)),
      ("ack", "1") ]
  }

  function StatusText(index: nat, sequence: u64, sentMs: u64): string {
    STATUS_PREFIX + Render(StatusPairs(index, sequence, sentMs)) + "\n"
  }

  /** What that line says about the device. */
  function StatusSaid(index: nat, sequence: u64, sentMs: u64): DeviceStatus {
    DeviceStatus(DeviceIdFor(index), "OK", 87,
      (index % 50) as real, (index / 50 % 50) as real, (index % 10) as real, sequence, sentMs, true)
  }

  /** The printer as written. */
  method MakeStatusLine(client: ClientState) returns (line: string)
    ensures line == StatusText(client.index, client.sequence, client.sentMs)
  {
    hide Render, ToString;
    ghost var pairs := StatusPairs(client.index, client.sequence, client.sentMs);
    line := "STATUS device_id=" + DeviceIdFor(client.index);
    FirstField(STATUS_PREFIX, pairs);
    line := AppendField(STATUS_PREFIX, pairs, 1, line, " state=", "OK");
    line := AppendField(STATUS_PREFIX, pairs, 2, line, " battery=", "87");
    line := AppendField(STATUS_PREFIX, pairs, 3, line, " x=", ToString(client.index % 50));
    line := AppendField(STATUS_PREFIX, pairs, 4, line, " y=", ToString(client.index / 50 % 50));
    line := AppendCounters(client, line);
    assert pairs[..9] == pairs;
    line := line + "\n";
  }

  method AppendCounters(client: ClientState, start: string) returns (line: string)
    requires start == STATUS_PREFIX + Render(StatusPairs(client.index, client.sequence, client.sentMs)[..5])
    ensures line == STATUS_PREFIX + Render(StatusPairs(client.index, client.sequence, client.sentMs)[..9])
  {
    hide Render, ToString;
    ghost var pairs := StatusPairs(client.index, client.sequence, client.sentMs);
    line := AppendField(STATUS_PREFIX, pairs, 5, start, " z=", ToString(client.index % 10));
    line := AppendField(STATUS_PREFIX, pairs, 6, line, " seq=", ToString(client.sequence));
    line := AppendField(STATUS_PREFIX, pairs, 7, line, " sent_ms=", ToString(client.sentMs));
    line := AppendField(STATUS_PREFIX, pairs, 8, line, " ack=", "1");
  }

  /** The status with only its first `k` printed fields set. */
  function Upto(s: DeviceStatus, k: nat): DeviceStatus {
    DeviceStatus(
      if k > 0 then s.deviceId else "",
      if k > 1 then s.state else "",
      if k > 2 then s.battery else 0,
      if k > 3 then s.x else 0.0,
      if k > 4 then s.y else 0.0,
      if k > 5 then s.z else 0.0,
      if k > 6 then s.sequence else 0,
      if k > 7 then s.sentMs else 0,
      if k > 8 then s.ackRequested else false)
  }

  lemma EightySeven()
    ensures ToString(87) == "87" && ParseI32("87") == Some(87)
  {
    assert ToString(87) == ToString(8) + [Digit(7)];
    I32RoundTrip(87);
  }

  lemma AssignNext(index: nat, sequence: u64, sentMs: u64, k: nat)
    requires k < 9
    ensures var pair := StatusPairs(index, sequence, sentMs)[k];
            var said := StatusSaid(index, sequence, sentMs);
            Assign(Upto(said, k), pair.0, pair.1) == Some(Upto(said, k + 1))
  {
    EightySeven();
    hide ToString, ParseI32, ParseDecimal, ParseU64;
    DecimalRoundTrip(index % 50);
    DecimalRoundTrip(index / 50 % 50);
    DecimalRoundTrip(index % 10);
    U64RoundTrip(sequence);
    U64RoundTrip(sentMs);
  }

  lemma DeviceIdIsValueText(index: nat)
    ensures ValueText(DeviceIdFor(index))
  {
    hide ToString, Value;
    PrintedValue(index);
    var id := DeviceIdFor(index);
    forall i | 0 <= i < |id| ensures id[i] != ' ' && id[i] != '\n' && id[i] != '\r' {
      if i >= 5 {
        assert id[i] == ToString(index)[i - 5];
      }
    }
  }

  lemma NumberIsValueText(n: nat)
    ensures ValueText(ToString(n))
  {
    hide ToString, Value;
    PrintedValue(n);
  }

  lemma PairsArePrintable(index: nat, sequence: u64, sentMs: u64)
    ensures forall k :: 0 <= k < 9 ==> Printable(StatusPairs(index, sequence, sentMs)[k])
  {
    assert KeyText("device_id") && KeyText("state") && KeyText("battery") && KeyText("x") && KeyText("y");
    assert KeyText("z") && KeyText("seq") && KeyText("sent_ms") && KeyText("ack");
    assert ValueText("OK") && ValueText("87") && ValueText("1");
    hide KeyText, ValueText, ToString, DeviceIdFor;
    DeviceIdIsValueText(index);
    NumberIsValueText(index % 50);
    NumberIsValueText(index / 50 % 50);
    NumberIsValueText(index % 10);
    NumberIsValueText(sequence);
    NumberIsValueText(sentMs);
  }

  lemma {:induction false} FoldRemaining(index: nat, sequence: u64, sentMs: u64, k: nat)
    requires k <= 9
    ensures var said := StatusSaid(index, sequence, sentMs);
            FoldPairs(ASSIGN, StatusPairs(index, sequence, sentMs)[k..], Upto(said, k)) == Some(said)
    decreases 9 - k
  {
    hide Assign, ToString;
    if k < 9 {
      AssignNext(index, sequence, sentMs, k);
      FoldRemaining(index, sequence, sentMs, k + 1);
      var pairs := StatusPairs(index, sequence, sentMs);
      assert pairs[k..][1..] == pairs[k + 1..];
    }
  }

  /** Every STATUS line the load generator prints is one line and reads back as what it says. */
  lemma StatusRoundTrip(index: nat, sequence: u64, sentMs: u64)
    ensures var line := StatusText(index, sequence, sentMs);
            StatusOf(line) == Some(StatusSaid(index, sequence, sentMs)) && IsLine(line)
  {
    hide Assign, Tokens, Fold, FoldPairs, Render, StripEol, HasTag, ToString, KeyText, ValueText, IsLine;
    var pairs := StatusPairs(index, sequence, sentMs);
    PairsArePrintable(index, sequence, sentMs);
    assert Printable(pairs[8]);
    RenderedBody(STATUS_PREFIX, pairs);
    RenderedIsLine(STATUS_PREFIX, pairs);
    FoldRendered(ASSIGN, pairs, EMPTY_STATUS);
    FoldRemaining(index, sequence, sentMs, 0);
    assert pairs[0..] == pairs;
    assert EMPTY_STATUS == Upto(StatusSaid(index, sequence, sentMs), 0);
  }

  /** The status in full: the id and the coordinates follow from the index. */
  lemma StatusInFull(index: nat, sequence: u64, sentMs: u64)
    ensures StatusOf(StatusText(index, sequence, sentMs))
         == Some(DeviceStatus("load-" + ToString(index), "OK", 87,
                   (index % 50) as real, (index / 50 % 50) as real, (index % 10) as real, sequence, sentMs, true))
  {
    hide StatusOf, StatusText, ToString;
    StatusRoundTrip(index, sequence, sentMs);
  }

  // ---- sending ----

  /** What `send` does with a whole STATUS line; a short count and a hard error both end the program. */
  datatype SendResult = Sent | WouldBlock | Short(count: nat) | HardError

  datatype SendOutcome =
    | Went(client: ClientState)
    | Blocked(client: ClientState)
    | Thrown(client: ClientState)

  function Stamped(client: ClientState, nowMs: u64): ClientState {
    client.(sequence := Wrap(client.sequence + 1), sentMs := nowMs)
  }

  /** One attempt to send the next STATUS: a full socket takes the sequence number back, but not the time stamp. */
  function SendStatus(client: ClientState, nowMs: u64, result: SendResult): SendOutcome {
    match result
    case Sent => Went(Stamped(client, nowMs).(phase := WaitingAck))
    case WouldBlock => Blocked(client.(sentMs := nowMs))
    case _ => Thrown(Stamped(client, nowMs))
  }

  // ---- receiving ----

  predicate IsAckLine(line: string) { "ACK " <= line }

  /** How a round of `recv` calls ends once the data is used up. */
  datatype RecvEnd = NothingMore | PeerClosed | RecvFailed

  datatype AckOutcome =
    | GotAck(client: ClientState, line: string, used: nat)
    | StillWaiting(client: ClientState)
    | Broken(client: ClientState)

  /** After a chunk: one line is taken off the buffer if there is one; only an ACK line ends the wait. */
  function AfterChunk(client: ClientState, chunk: string): (ClientState, Option<string>) {
    var buffer := client.receiveBuffer + chunk;
    var newline := Find(buffer, '\n');
    if newline == |buffer| then (client.(receiveBuffer := buffer), None)
    else (client.(receiveBuffer := buffer[newline + 1..]), Some(buffer[..newline + 1]))
  }

  /** Reading chunks until an ACK line comes off the buffer; the remaining chunks stay unread. */
  function ReceiveAck(client: ClientState, chunks: seq<string>, end: RecvEnd): AckOutcome
    decreases |chunks|
  {
    if chunks == [] then (if end.NothingMore? then StillWaiting(client) else Broken(client))
    else
      var (next, line) := AfterChunk(client, chunks[0]);
      if line.Some? && IsAckLine(line.value) then GotAck(next.(phase := Ready), line.value, 1)
      else
        match ReceiveAck(next, chunks[1..], end)
        case GotAck(c, l, used) => GotAck(c, l, used + 1)
        case other => other
  }

  lemma {:induction false} ReceiveAckUses(client: ClientState, chunks: seq<string>, end: RecvEnd)
    ensures var r := ReceiveAck(client, chunks, end);
            && r.client.fd == client.fd && r.client.index == client.index
            && r.client.sequence == client.sequence && r.client.sentMs == client.sentMs
            && (r.GotAck? ==> 0 < r.used <= |chunks| && IsAckLine(r.line) && r.client.phase == Ready)
            && (!r.GotAck? ==> r.client.phase == client.phase)
    decreases |chunks|
  {
    if chunks != [] {
      var (next, line) := AfterChunk(client, chunks[0]);
      ReceiveAckUses(next, chunks[1..], end);
    }
  }

  // ---- what reading does to the bytes ----

  /** After a chunk, the line taken and the buffer left are the bytes there were; without a line there is no newline. */
  lemma AfterChunkKeepsBytes(client: ClientState, chunk: string)
    ensures var (next, line) := AfterChunk(client, chunk); var bytes := client.receiveBuffer + chunk;
            && next == client.(receiveBuffer := next.receiveBuffer)
            && (line.Some? ==> IsLine(line.value) && line.value + next.receiveBuffer == bytes)
            && (line.None? ==> Free(bytes, '\n') && next.receiveBuffer == bytes)
  {
  }

  /**
   Waiting for an answer takes complete lines off the stream, at most one per chunk,
   and drops those that are no ACK; it ends at the first ACK line, or else when all
   chunks are used up. Every other byte stays in the buffer.
   */
  lemma {:induction false} ReceiveAckTakesLines(client: ClientState, chunks: seq<string>, end: RecvEnd)
    returns (lines: seq<string>)
    ensures var r := ReceiveAck(client, chunks, end); var used := if r.GotAck? then r.used else |chunks|;
            && used <= |chunks| && |lines| <= used
            && client.receiveBuffer + Join(chunks[..used]) == Join(lines) + r.client.receiveBuffer
            && (forall line :: line in lines ==> IsLine(line))
            && (r.GotAck? ==> lines != [] && lines[|lines| - 1] == r.line && IsAckLine(r.line))
            && (r.GotAck? ==> forall i :: 0 <= i < |lines| - 1 ==> !IsAckLine(lines[i]))
            && (!r.GotAck? ==> forall i :: 0 <= i < |lines| ==> !IsAckLine(lines[i]))
            && (!r.GotAck? ==> (r.Broken? <==> !end.NothingMore?))
    decreases |chunks|
  {
    hide IsLine, IsAckLine, AfterChunk;
    ReceiveAckUses(client, chunks, end);
    if chunks == [] {
      lines := [];
      assert client.receiveBuffer + "" == "" + client.receiveBuffer;
    } else {
      var (next, line) := AfterChunk(client, chunks[0]);
      AfterChunkKeepsBytes(client, chunks[0]);
      if line.Some? && IsAckLine(line.value) {
        lines := [line.value];
        JoinOne(line.value);
        JoinOne(chunks[0]);
        assert chunks[..1] == [chunks[0]];
      } else {
        var more := ReceiveAckTakesLines(next, chunks[1..], end);
        lines := if line.Some? then [line.value] + more else more;
        ReceiveAckUses(next, chunks[1..], end);
        var r, rest := ReceiveAck(client, chunks, end), ReceiveAck(next, chunks[1..], end);
        var used := if r.GotAck? then r.used else |chunks|;
        assert chunks[..used][1..] == chunks[1..][..used - 1];
        assert Join(chunks[..used]) == chunks[0] + Join(chunks[1..][..used - 1]);
        TakenThen(client.receiveBuffer, chunks[0], Join(chunks[1..][..used - 1]),
                  if line.Some? then line.value else "", next.receiveBuffer, Join(more), r.client.receiveBuffer);
        if line.Some? {
          assert lines[1..] == more;
        }
      }
    }
  }

  lemma TakenThen(buffer: string, chunk: string, later: string, line: string, next: string, more: string, left: string)
    requires buffer + chunk == line + next && next + later == more + left
    ensures buffer + (chunk + later) == (line + more) + left && more == "" + more
  {
    assert buffer + (chunk + later) == (buffer + chunk) + later;
    assert (line + next) + later == line + (next + later);
    assert line + (more + left) == (line + more) + left;
  }
}
