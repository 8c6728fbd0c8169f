/**
 One complete round of the protocol: connect, accept, STATUS, ACK, sample. It shows
 that the runs AckSystem speaks about exist and do take samples.
 */
module AckRoundTrip {
  import opened Text
  import opened Decimal
  import opened Fields
  import opened StatusCodec
  import opened LoadgenClient
  import opened ServerSpec
  import opened ServerInvariant
  import opened ServerTheorems
  import opened AckSystem

  const SAID := StatusSaid(0, 1, 7)

  function Question(): string { StatusText(0, 1, 7) }

  function AnswerLine(): string { AckText(SAID, 0) }

  /** A clock that stands still and a network that takes every byte. */
  function Calm(): ServerSpec.Env {
    ServerSpec.Env((i: nat) => 0, (c: nat, k: nat) => Written(|AnswerLine()|))
  }

  function Moves(): seq<Move> {
    [ ClientConnects(0),
      ServerAccepts(5, 0),
      ClientSends(0, 7, LoadgenClient.SendResult.Sent),
      ServerHandles(Readable(5, [Question()], true)),
      ClientReceives(0, 9, [AnswerLine()], NothingMore) ]
  }

  // ---- the states in between ----

  function ClientAt(sequence: u64, sentMs: u64, phase: Phase): ClientState {
    ClientState(0, 0, sequence, sentMs, "", phase)
  }

  /** The server once the connection is accepted. */
  function Listening(): State {
    Accept(Init(Calm()), 5)
  }

  function Asked(): Core { ReceiveOn(Listening().core, 0, Question()) }

  function Served(): State {
    Listening().(core := HandleLine(Calm(), Asked(), 5, Question()))
  }

  function ServerAt(k: nat): State {
    if k < 2 then Init(Calm()) else if k < 4 then Listening() else Served()
  }

  function PeerAt(k: nat): Peer {
    match k
    case 0 => Peer(NewClient(0, 0), None, [], "", "", [], false)
    case 1 => Peer(ClientAt(0, 0, Ready), None, [], "", "", [], false)
    case 2 => Peer(ClientAt(0, 0, Ready), Some(0), [], "", "", [], false)
    case 3 => Waiting()
    case 4 => Waiting()
    case _ => Peer(ClientAt(1, 7, Ready), Some(0), [7], "", AnswerLine(), [Sample(AnswerLine(), 9, 2, SAID)], false)
  }

  function Waiting(): Peer { Peer(ClientAt(1, 7, WaitingAck), Some(0), [7], "", "", [], false) }

  function After(k: nat): System { System(ServerAt(k), [PeerAt(k)], false) }

  // ---- one lemma per move ----

  lemma Connects()
    ensures Apply(Calm(), After(0), Moves()[0]) == After(1) && Possible(Calm(), After(0), Moves()[0])
  {
    hide StatusText, AckText, Init, Step;
    assert [PeerAt(0)][0 := PeerAt(1)] == [PeerAt(1)];
  }

  lemma Accepts()
    ensures Apply(Calm(), After(1), Moves()[1]) == After(2) && Possible(Calm(), After(1), Moves()[1])
  {
    hide StatusText, AckText;
    var s := Init(Calm());
    assert AcceptAll(s, [5]) == Accept(s, 5) by {
      assert [5][..0] == [] && AcceptAll(s, []) == s;
    }
    hide AcceptAll;
    assert Listening().core.world.conns == map[0 := Conn("", [])];
    assert [PeerAt(1)][0 := PeerAt(2)] == [PeerAt(2)];
  }

  lemma Asks()
    ensures Apply(Calm(), After(2), Moves()[2]) == After(3) && Possible(Calm(), After(2), Moves()[2])
  {
    AskedOnce();
    ListeningConns();
    hide StatusText, AckText, Init, Listening, Sends;
    assert [PeerAt(2)][0 := PeerAt(3)] == [PeerAt(3)];
  }

  lemma AskedOnce()
    ensures Sends(PeerAt(2), 7, LoadgenClient.SendResult.Sent) == Waiting()
    ensures !SendStatus(PeerAt(2).client, 7, LoadgenClient.SendResult.Sent).Thrown?
  {
    hide StatusText;
    var none: seq<u64> := [];
    assert none + [7] == [7];
  }

  lemma ListeningConns()
    ensures var w := Listening().core.world;
            && w.conns == map[0 := Conn("", [])] && w.descriptors == map[5 := 0]
            && Listening().buffers == map[5 := ""] && Listening().core.viewers == {}
  {
    hide StatusText, AckText;
  }

  lemma StepOneLine(env: ServerSpec.Env, s: State, line: string)
    requires s.buffers == map[5 := ""] && IsLine(line)
    requires s.core.world.conns == map[0 := Conn("", [])] && s.core.world.descriptors == map[5 := 0]
    ensures Step(env, s, Readable(5, [line], true)) == s.(core := HandleLine(env, ReceiveOn(s.core, 0, line), 5, line))
  {
    hide HandleLine, IsLine;
    ReceivesOneLine(s, line);
    OneLine(line);
    OneHandled(env, ReceiveOn(s.core, 0, line), 5, line);
    hide HandleLines, Lines, Rest, Join, Receive, ReceiveOn;
    assert map[5 := line][5 := ""] == s.buffers;
  }

  lemma ReceivesOneLine(s: State, line: string)
    requires s.buffers == map[5 := ""]
    requires s.core.world.conns == map[0 := Conn("", [])] && s.core.world.descriptors == map[5 := 0]
    ensures Receive(s, 5, Join([line])) == s.(core := ReceiveOn(s.core, 0, line), buffers := map[5 := line])
  {
    JoinOne(line);
    hide Join;
    assert "" + line == line;
    assert map[5 := ""][5 := line] == map[5 := line];
  }

  lemma BeforeServing()
    ensures After(3) == System(Listening(), [Waiting()], false) && After(4) == System(Served(), [Waiting()], false)
    ensures |Moves()| == 5 && Moves()[3] == ServerHandles(Readable(5, [Question()], true))
    ensures After(5) == System(Served(), [PeerAt(5)], false)
    ensures Moves()[4] == ClientReceives(0, 9, [AnswerLine()], NothingMore)
  {
    hide StatusText, AckText, Listening, Served, Question, AnswerLine;
  }

  lemma Serves()
    ensures Apply(Calm(), After(3), Moves()[3]) == After(4)
  {
    BeforeServing();
    ServedFromListening();
    hide *;
    HandlesFor(Calm(), Listening(), Served(), Question());
  }

  lemma HandlesFor(env: ServerSpec.Env, before: State, after: State, line: string)
    requires after == Step(env, before, Readable(5, [line], true))
    ensures Apply(env, System(before, [Waiting()], false), ServerHandles(Readable(5, [line], true)))
         == System(after, [Waiting()], false)
  {
    hide Step, Waiting;
  }

  lemma ServedFromListening()
    ensures Served() == Step(Calm(), Listening(), Readable(5, [Question()], true))
  {
    ListeningConns();
    StatusRoundTrip(0, 1, 7);
    hide StatusText, AckText, Listening, Step, HandleLine, IsLine, Calm;
    StepOneLine(Calm(), Listening(), Question());
  }

  lemma OneLine(line: string)
    requires IsLine(line)
    ensures Lines(line) == [line] && Rest(line) == ""
  {
    LinesOfLineThen(line, "");
    NoLines("");
    assert line + "" == line;
  }

  lemma OneHandled(env: ServerSpec.Env, core: Core, fd: int, line: string)
    ensures HandleLines(env, core, fd, [line]) == HandleLine(env, core, fd, line)
  {
    hide HandleLine;
    assert [line][..0] == [] && HandleLines(env, core, fd, []) == core;
  }

  lemma SendsOnFive(env: ServerSpec.Env, w: World, received: string, msg: Msg)
    requires w.conns == map[0 := Conn(received, [])] && w.descriptors == map[5 := 0]
    ensures SendAll(env, w, {5}, msg) == w.(conns := map[0 := Conn(received, [Attempt(msg, env.outcome(0, 0))])])
  {
    assert Targets(w, {5}) == {0};
    var none: seq<Attempt> := [];
    assert none + [Attempt(msg, env.outcome(0, 0))] == [Attempt(msg, env.outcome(0, 0))];
    assert SendAll(env, w, {5}, msg).conns == map[0 := Conn(received, [Attempt(msg, env.outcome(0, 0))])];
  }

  lemma SendsToNobody(env: ServerSpec.Env, w: World, msg: Msg)
    ensures SendAll(env, w, {}, msg) == w
  {
    assert SendAll(env, w, {}, msg).conns == w.conns;
  }

  /** With no viewer about, an accepted line that asks for it is answered, and that is all. */
  lemma ServesOne(env: ServerSpec.Env, core: Core, line: string, status: DeviceStatus)
    requires core.world.conns == map[0 := Conn(line, [])] && core.world.descriptors == map[5 := 0] && core.viewers == {}
    requires Accepted(line) == Some(status) && status.ackRequested
    ensures HandleLine(env, core, 5, line).world.conns
         == map[0 := Conn(line, [Attempt(Ack(status, env.clock(core.world.ticks)), env.outcome(0, 0))])]
  {
    hide StatusOf, SendAll, Failures, ServerSpec.SendOutcome;
    var stored := Store(Note(core, Line(0, line)), status);
    SendsOnFive(env, stored.world.(ticks := stored.world.ticks + 1), line, Ack(status, env.clock(core.world.ticks)));
    var answered := Acknowledge(env, stored, 5, status);
    SendsToNobody(env, answered.world, Relay(0, line));
    assert answered.viewers - {5} == {};
  }

  lemma AskedConns()
    ensures var core := Asked();
            core.world.conns == map[0 := Conn(Question(), [])] && core.world.descriptors == map[5 := 0] && core.viewers == {}
  {
    ListeningConns();
    hide Listening, StatusText;
    assert "" + Question() == Question();
  }

  /** Serving the question puts the whole answer on the wire. */
  lemma ServedConns()
    ensures Served().core.world.conns
         == map[0 := Conn(Question(), [Attempt(Ack(SAID, 0), Written(|AnswerLine()|))])]
  {
    AskedConns();
    QuestionAccepted();
    hide StatusText, AckText, Asked, Listening, HandleLine, Accepted;
    ServesOne(Calm(), Asked(), Question(), SAID);
  }

  lemma QuestionAccepted()
    ensures Accepted(Question()) == Some(SAID) && SAID.ackRequested
  {
    StatusRoundTrip(0, 1, 7);
    StatusTextIsNotHello(0, 1, 7);
    AsksForAck();
    hide StatusText, StatusOf, IsHello, StatusSaid;
  }

  lemma AsksForAck()
    ensures SAID.ackRequested
  {
  }

  lemma OutboxOfOne(peer: Peer)
    requires peer.client.index == 0 && peer.stamps == [7]
    ensures Join(Outbox(peer)) + "" == Question()
  {
    hide StatusText;
    assert Outbox(peer) == [Question()];
    JoinOne(Question());
    assert Question() + "" == Question();
  }

  /** The channels after the question has been served, with some of the answer read. */
  lemma ChannelsHold(peer: Peer)
    requires peer.client.index == 0 && peer.stamps == [7] && peer.tail == "" && peer.conn == Some(0)
    requires peer.inbox == "" || peer.inbox == AnswerLine()
    ensures Fifo(Served().core.world, peer)
  {
    ServedConns();
    OutboxOfOne(peer);
    var w := Served().core.world;
    WholeAnswer(w.conns[0].sends);
    hide *;
    ChannelsOf(w, peer, Question(), AnswerLine());
  }

  lemma ChannelsOf(w: World, peer: Peer, question: string, answer: string)
    requires 0 in w.conns && peer.conn == Some(0)
    requires w.conns[0].received == question == Join(Outbox(peer)) + peer.tail
    requires DeliveredAll(w.conns[0].sends) == answer
    requires peer.inbox == "" || peer.inbox == answer
    ensures Fifo(w, peer)
  {
    hide Outbox, DeliveredAll, Join;
  }

  lemma ServingIsPossible()
    ensures Possible(Calm(), After(3), Moves()[3])
  {
    BeforeServing();
    Serves();
    ListeningConns();
    ChannelsHold(Waiting());
    hide *;
    CanBeServed(Calm(), Listening(), Served(), Question());
  }

  lemma CanBeServed(env: ServerSpec.Env, before: State, after: State, line: string)
    requires before.core.world.descriptors == map[5 := 0] && Fifo(after.core.world, Waiting())
    requires var y := System(before, [Waiting()], false); var move := ServerHandles(Readable(5, [line], true));
             Apply(env, y, move) == System(after, [Waiting()], false)
    ensures Possible(env, System(before, [Waiting()], false), ServerHandles(Readable(5, [line], true)))
  {
    hide Apply, Fifo, Waiting;
  }

  lemma Answers()
    ensures Apply(Calm(), After(4), Moves()[4]) == After(5) && Possible(Calm(), After(4), Moves()[4])
  {
    BeforeServing();
    AnswerSampled();
    AnsweredChannels();
    hide *;
    TakesAnswer(Calm(), Served(), AnswerLine());
  }

  lemma AnsweredChannels()
    ensures Fifo(Served().core.world, PeerAt(5))
  {
    hide Served, AckText, StatusText, Fifo, StatusSaid;
    ChannelsHold(PeerAt(5));
  }

  lemma TakesAnswer(env: ServerSpec.Env, server: State, ack: string)
    requires var peer := Receives(Waiting(), 9, [ack], NothingMore); Fifo(server.core.world, peer)
    ensures var y := System(server, [Waiting()], false); var move := ClientReceives(0, 9, [ack], NothingMore);
            && Apply(env, y, move) == System(server, [Receives(Waiting(), 9, [ack], NothingMore)], false)
            && Possible(env, y, move)
  {
    hide Receives, Fifo;
    var y := System(server, [Waiting()], false);
    assert [Waiting()][0 := Receives(Waiting(), 9, [ack], NothingMore)] == [Receives(Waiting(), 9, [ack], NothingMore)];
  }

  lemma AnswerSampled()
    ensures Receives(Waiting(), 9, [AnswerLine()], NothingMore) == PeerAt(5)
  {
    AnswerReceived(AnswerLine());
    hide StatusText, AckText, AnswerLine, ReceiveAck, StatusSaid, Join;
    SampledFrom(AnswerLine());
  }

  lemma SampledFrom(ack: string)
    requires ReceiveAck(ClientAt(1, 7, WaitingAck), [ack], NothingMore) == GotAck(ClientAt(1, 7, Ready), ack, 1)
    ensures Receives(Waiting(), 9, [ack], NothingMore)
         == Peer(ClientAt(1, 7, Ready), Some(0), [7], "", ack, [Sample(ack, 9, 2, SAID)], false)
  {
    JoinOne(ack);
    hide ReceiveAck, StatusSaid, Join;
    assert [ack][..1] == [ack] && "" + ack == ack;
    var none: seq<Sample> := [];
    assert none + [Sample(ack, 9, 2, SAID)] == [Sample(ack, 9, 2, SAID)];
  }

  lemma AnswerReceived(ack: string)
    requires ack == AnswerLine()
    ensures ReceiveAck(ClientAt(1, 7, WaitingAck), [ack], NothingMore) == GotAck(ClientAt(1, 7, Ready), ack, 1)
  {
    SaidIsNamed(Waiting(), 0);
    AckTextIsLine(SAID, 0);
    hide AckText, StatusSaid;
    AckRead(ClientAt(1, 7, WaitingAck), ack);
  }

  lemma AckRead(client: ClientState, ack: string)
    requires IsLine(ack) && IsAckLine(ack) && client.receiveBuffer == ""
    ensures ReceiveAck(client, [ack], NothingMore) == GotAck(client.(phase := Ready), ack, 1)
  {
    FindUnique(ack, '\n', |ack| - 1);
    assert "" + ack == ack && ack[|ack|..] == "" && ack[..|ack|] == ack;
    assert AfterChunk(client, ack) == (client, Some(ack));
  }

  lemma WholeAnswer(sends: seq<Attempt>)
    requires sends == [Attempt(Ack(SAID, 0), Written(|AnswerLine()|))]
    ensures DeliveredAll(sends) == AnswerLine()
  {
    hide AckText;
    assert sends[..0] == [] && DeliveredAll([]) == "";
    var bytes := AnswerLine();
    assert Delivered(sends[0]) == bytes[..|bytes|] == bytes;
    assert "" + bytes == bytes;
  }

  lemma StartsAtZero()
    ensures Start(Calm(), 1) == After(0)
  {
    hide Init, AckText, StatusText;
    assert Start(Calm(), 1).peers == [PeerAt(0)];
  }

  lemma FiveMoves()
    ensures |Moves()| == 5
  {
    hide StatusText, AckText;
  }

  lemma EachMove(k: nat)
    requires k < 5
    ensures |Moves()| == 5
    ensures Apply(Calm(), After(k), Moves()[k]) == After(k + 1) && Possible(Calm(), After(k), Moves()[k])
  {
    hide *;
    FiveMoves();
    if k == 0 { Connects(); }
    else if k == 1 { Accepts(); }
    else if k == 2 { Asks(); }
    else if k == 3 { Serves(); ServingIsPossible(); }
    else { Answers(); }
  }

  lemma {:induction false} Reaches(k: nat)
    requires k <= |Moves()| == 5
    ensures RunMoves(Calm(), 1, Moves()[..k]) == After(k)
  {
    hide Apply, Start, Possible, Moves, Calm, After;
    if k == 0 {
      StartsAtZero();
      assert Moves()[..0] == [];
    } else {
      Reaches(k - 1);
      EachMove(k - 1);
      assert Moves()[..k][..k - 1] == Moves()[..k - 1];
    }
  }

  /** There is a possible run in which the client sends one STATUS and takes one sample, on its ACK. */
  lemma OneRound()
    ensures PossibleMoves(Calm(), 1, Moves())
    ensures RunMoves(Calm(), 1, Moves()) == System(Served(), [PeerAt(5)], false)
    ensures PeerAt(5).samples == [Sample(AnswerLine(), 9, 2, SAID)]
  {
    TimeStandsStill();
    FiveMoves();
    hide Possible, Moves, Calm, RunMoves, Served, AckText;
    forall k | 0 <= k < |Moves()| ensures Possible(Calm(), RunMoves(Calm(), 1, Moves()[..k]), Moves()[k]) {
      Reaches(k);
      EachMove(k);
    }
    Reaches(5);
    assert Moves()[..5] == Moves();
  }

  lemma TimeStandsStill()
    ensures ServerSpec.Monotone(Calm())
  {
    hide AckText;
  }
}
