/**
 The load generator as written: a table of clients updated in place, a connect
 phase, and the traffic loop. Its methods are proved against LoadgenClient and
 Traffic.
 */
module LoadGenerator {
  import opened Text
  import opened Decimal
  import opened LoadgenClient
  import opened TrafficLoop

  /** One readiness report while connecting; `connected` is what `getsockopt` says. */
  datatype ConnectEvent = ConnectEvent(fd: int, failed: bool, writable: bool, connected: bool)

  datatype ConnectPoll = TimedOut | Progress(events: seq<ConnectEvent>)

  /** How connecting ended; `Unfinished` is a run cut off while still connecting. */
  datatype ConnectOutcome = AllReadyNow | NobodyLeft | GaveUp | Unfinished

  /** The clients created for a sequence of sockets. */
  function NewClients(fds: seq<int>): map<int, ClientState> {
    if fds == [] then map[]
    else
      var index := |fds| - 1;
      NewClients(fds[..index])[fds[index] := NewClient(fds[index], index)]
  }

  /** A report concerns its own client only: errors drop it, a completed connection makes it ready. */
  function AfterConnect(clients: map<int, ClientState>, event: ConnectEvent): map<int, ClientState> {
    var fd := event.fd;
    if fd !in clients then clients
    else if event.failed then clients - {fd}
    else if clients[fd].phase != Connecting || !event.writable then clients
    else if event.connected then clients[fd := clients[fd].(phase := Ready)]
    else clients - {fd}
  }

  function AfterConnects(clients: map<int, ClientState>, events: seq<ConnectEvent>): map<int, ClientState> {
    if events == [] then clients
    else AfterConnect(AfterConnects(clients, events[..|events| - 1]), events[|events| - 1])
  }

  function AfterRounds(clients: map<int, ClientState>, polls: seq<ConnectPoll>): map<int, ClientState> {
    if polls == [] then clients
    else
      var before := AfterRounds(clients, polls[..|polls| - 1]);
      if polls[|polls| - 1].TimedOut? then before else AfterConnects(before, polls[|polls| - 1].events)
  }

  class Generator {
    const env: Env
    var order: seq<int>                  // iteration order of the hash table
    var clients: map<int, ClientState>
    var latencies: seq<u64>
    var errors: nat
    var sent: nat
    var sendCredit: real
    var nextClientIndex: nat
    var lastTickMs: nat
    var ticks: nat
    var attempts: nat
    var halted: bool
    ghost var log: Log

    ghost function View(): Traffic
      reads this
    {
      Traffic(order, clients, latencies, errors, sent, sendCredit, nextClientIndex, lastTickMs,
                      ticks, attempts, halted, log)
    }

    constructor (env: Env)
      ensures this.env == env && clients == map[] && order == [] && errors == 0
    {
      this.env := env;
      order, clients, latencies, errors, sent := [], map[], [], 0, 0;
      sendCredit, nextClientIndex, lastTickMs := 0.0, 0, 0;
      ticks, attempts, halted := 0, 0, false;
      log := Log(0, 0, map[], 0);
    }

    method NowMs() returns (ms: u64)
      modifies this`ticks
      ensures ms == env.clock(old(ticks)) && ticks == old(ticks) + 1
    {
      ms := env.clock(ticks);
      ticks := ticks + 1;
    }

    method SystemSend(line: string) returns (result: SendResult)
      modifies this`attempts
      ensures result == env.send(old(attempts)) && attempts == old(attempts) + 1
    {
      result := env.send(attempts);
      attempts := attempts + 1;
    }

    // ---- connecting ----

    /** Every client is unused: nothing sent, nothing received. */
    ghost predicate Unused()
      reads this
    {
      && (forall fd :: fd in clients <==> fd in order)
      && Distinct(order)
      && (forall fd :: fd in clients ==>
            clients[fd] == NewClient(fd, clients[fd].index).(phase := clients[fd].phase)
            && clients[fd].phase != WaitingAck)
    }

    method DropClient(fd: int)
      requires Unused() && fd in clients
      modifies this`clients, this`order, this`errors
      ensures Unused() && clients == old(clients) - {fd} && errors == old(errors) + 1
      ensures |clients| == old(|clients|) - 1
    {
      WithoutKeepsOthers(order, fd);
      RemovingOne(clients, fd);
      clients := clients - {fd};
      order := Without(order, fd);
      errors := errors + 1;
    }

    method HandleConnectEvent(event: ConnectEvent)
      requires Unused()
      modifies this`clients, this`order, this`errors
      ensures Unused() && errors + |clients| == old(errors + |clients|)
      ensures clients == AfterConnect(old(clients), event)
      ensures event.fd in old(clients) && old(clients)[event.fd].phase == Connecting && event.writable && !event.failed ==>
        (event.fd in clients <==> event.connected) && (event.connected ==> clients[event.fd].phase == Ready)
      ensures event.failed ==> event.fd !in clients
    {
      var fd := event.fd;
      if fd !in clients { return; }
      if event.failed {
        DropClient(fd);
      } else if clients[fd].phase == Connecting && event.writable {
        if !event.connected {
          DropClient(fd);
        } else {
          ReplacingKeepsSize(clients, fd, clients[fd].(phase := Ready));
          clients := clients[fd := clients[fd].(phase := Ready)];
        }
      }
    }

    method AllReady() returns (yes: bool)
      requires forall fd :: fd in clients <==> fd in order
      ensures yes <==> forall fd :: fd in clients ==> clients[fd].phase == Ready
    {
      for i := 0 to |order|
        invariant forall j :: 0 <= j < i ==> order[j] in clients && clients[order[j]].phase == Ready
      {
        var fd := order[i];
        assert fd in order;
        if clients[fd].phase != Ready { return false; }
      }
      return true;
    }

    /** One client per socket, in the order of creation; the hash table walks them as it likes. */
    method StartClients(fds: seq<int>, hashOrder: seq<int>)
      requires clients == map[] && errors == 0
      requires Distinct(fds) && Distinct(hashOrder) && forall fd :: fd in fds <==> fd in hashOrder
      modifies this`clients, this`order
      ensures Unused() && clients == NewClients(fds) && |clients| == |fds|
    {
      assert fds[..0] == [];
      for index := 0 to |fds|
        invariant clients == NewClients(fds[..index])
      {
        assert fds[..index + 1][..index] == fds[..index];
        clients := clients[fds[index] := NewClient(fds[index], index)];
      }
      assert fds[..|fds|] == fds;
      order := hashOrder;
      NewClientsAreUnused(fds);
    }

    method HandleConnectEvents(events: seq<ConnectEvent>)
      requires Unused()
      modifies this`clients, this`order, this`errors
      ensures Unused() && errors + |clients| == old(errors + |clients|)
      ensures clients == AfterConnects(old(clients), events)
    {
      hide AfterConnect;
      assert events[..0] == [];
      for i := 0 to |events|
        invariant Unused() && errors + |clients| == old(errors + |clients|)
        invariant clients == AfterConnects(old(clients), events[..i])
      {
        assert events[..i + 1][..i] == events[..i];
        HandleConnectEvent(events[i]);
      }
      assert events[..|events|] == events;
    }

    /**
     Connecting `|fds|` clients, the sockets being `fds` and the hash table walking
     them as `hashOrder`. A client that fails is counted once; when waiting times out
     every client still in the table is counted, the ready ones too.
     */
    method ConnectClients(fds: seq<int>, hashOrder: seq<int>, polls: seq<ConnectPoll>)
      returns (outcome: ConnectOutcome, ghost rounds: nat)
      requires clients == map[] && errors == 0
      requires Distinct(fds) && Distinct(hashOrder) && forall fd :: fd in fds <==> fd in hashOrder
      modifies this`clients, this`order, this`errors
      ensures Unused() && rounds <= |polls| && clients == AfterRounds(NewClients(fds), polls[..rounds])
      ensures errors + |clients| == |fds| + (if outcome.GaveUp? then |clients| else 0)
      ensures outcome.AllReadyNow? ==> forall fd :: fd in clients ==> clients[fd].phase == Ready
      ensures outcome.NobodyLeft? ==> clients == map[] && errors == |fds|
      ensures outcome.GaveUp? ==> rounds < |polls| && polls[rounds].TimedOut? && !(forall fd :: fd in clients ==> clients[fd].phase == Ready)
      ensures outcome.Unfinished? ==> rounds == |polls| && clients != map[]
    {
      hide AfterConnects, NewClients;
      StartClients(fds, hashOrder);
      rounds := 0;
      var round := 0;
      assert polls[..0] == [];
      while round < |polls| && clients != map[]
        invariant round == rounds <= |polls| && Unused() && errors + |clients| == |fds|
        invariant clients == AfterRounds(NewClients(fds), polls[..rounds])
      {
        var ready := AllReady();
        if ready { return AllReadyNow, rounds; }
        if polls[round].TimedOut? {
          errors := errors + |clients|;
          return GaveUp, rounds;
        }
        assert polls[..round + 1][..round] == polls[..round];
        HandleConnectEvents(polls[round].events);
        round := round + 1;
        rounds := rounds + 1;
      }
      return if clients == map[] then NobodyLeft else Unfinished, rounds;
    }

    // ---- traffic ----

    method SendStatus(fd: int) returns (went: bool)
      requires fd in clients
      modifies this`clients, this`ticks, this`attempts, this`halted
      ensures var r := LoadgenClient.SendStatus(old(clients)[fd], env.clock(old(ticks)), env.send(old(attempts)));
              && went == r.Went? && clients == old(clients)[fd := r.client] && halted == (old(halted) || r.Thrown?)
      ensures ticks == old(ticks) + 1 && attempts == old(attempts) + 1
    {
      var client := clients[fd];
      client := client.(sequence := Wrap(client.sequence + 1));
      var now := NowMs();
      client := client.(sentMs := now);
      var line := MakeStatusLine(client);
      var result := SystemSend(line);
      match result
      case WouldBlock =>
        UndoIncrement(clients[fd].sequence);
        client := client.(sequence := Wrap(client.sequence - 1));
        clients := clients[fd := client];
        return false;
      case Sent =>
        client := client.(phase := WaitingAck);
        clients := clients[fd := client];
        return true;
      case _ =>
        clients := clients[fd := client];
        halted := true;
        return false;
    }

    /** The client under the cursor tries to send; the credit and the cursor move only if it does. */
    method SendOne(fd: int) returns (went: bool)
      requires order != [] && fd == Chosen(View()) && ChosenIsReady(View())
      modifies this
      ensures View() == Attempt(env, old(View())) && went == (sent != old(sent))
    {
      went := SendStatus(fd);
      if went {
        sent := sent + 1;
        sendCredit := sendCredit - 1.0;
        nextClientIndex := nextClientIndex + 1;
        log := log.(sends := log.sends[fd := (if fd in log.sends then log.sends[fd] else 0) + 1]);
      }
    }

    /** The inner loop: one round-robin attempt per whole credit. */
    method SendDue(endMs: nat, currentMs: nat)
      requires Listed(View())
      modifies this
      ensures View() == SendLoop(env, old(View()), endMs, currentMs)
    {
      hide Attempt;
      ghost var goal := SendLoop(env, View(), endMs, currentMs);
      while sendCredit >= 1.0 && order != [] && currentMs < endMs
        invariant Listed(View()) && goal == SendLoop(env, View(), endMs, currentMs)
        decreases if sendCredit >= 1.0 then sendCredit.Floor else 0
      {
        var fd := order[nextClientIndex % |order|];
        assert fd in order;
        if clients[fd].phase != Ready { return; }
        AttemptFields(env, View());
        var went := SendOne(fd);
        if !went { return; }
      }
    }

    /** Reading until an ACK line comes off the buffer, the data ends, or the peer is gone. */
    method ReceiveAck(fd: int, chunks: seq<string>, end: RecvEnd) returns (latency: Option<u64>, broken: bool)
      requires fd in clients && clients[fd].phase == WaitingAck
      modifies this`clients, this`ticks
      ensures var r := LoadgenClient.ReceiveAck(old(clients)[fd], chunks, end);
              && clients == old(clients)[fd := r.client]
              && broken == r.Broken?
              && latency == (if r.GotAck? then Some(Wrap(env.clock(old(ticks)) - r.client.sentMs)) else None)
              && ticks == old(ticks) + (if r.GotAck? then 1 else 0)
    {
      hide Find, LoadgenClient.ReceiveAck;
      var client := clients[fd];
      ghost var goal := LoadgenClient.ReceiveAck(client, chunks, end);
      var i := 0;
      while i < |chunks|
        invariant i <= |chunks| && clients == old(clients) && ticks == old(ticks)
        invariant client.sentMs == clients[fd].sentMs
        invariant SameEnd(LoadgenClient.ReceiveAck(client, chunks[i..], end), goal)
      {
        assert chunks[i..][1..] == chunks[i + 1..];
        ReadOneChunk(client, chunks[i..], end);
        client := client.(receiveBuffer := client.receiveBuffer + chunks[i]);
        var newline := Find(client.receiveBuffer, '\n');
        if newline < |client.receiveBuffer| {
          var line := client.receiveBuffer[..newline + 1];
          client := client.(receiveBuffer := client.receiveBuffer[newline + 1..]);
          if "ACK " <= line {
            client := client.(phase := Ready);
            clients := clients[fd := client];
            var now := NowMs();
            return Some(Wrap(now - client.sentMs)), false;
          }
        }
        i := i + 1;
      }
      ReadNothing(client, chunks[i..], end);
      clients := clients[fd := client];
      return None, end != NothingMore;
    }

    method CloseClient(fd: int)
      requires fd in clients
      modifies this
      ensures View() == CloseOnError(old(View()), fd)
    {
      log := log.(lost := log.lost + (if clients[fd].phase == WaitingAck then 1 else 0), closed := log.closed + 1);
      clients := clients - {fd};
      order := Without(order, fd);
      errors := errors + 1;
    }

    method HandleEvent(event: PollEvent)
      modifies this
      ensures View() == HandlePoll(env, old(View()), event)
    {
      var fd := event.fd;
      if fd !in clients { return; }
      if event.failed {
        CloseClient(fd);
      } else if clients[fd].phase == WaitingAck && event.readable {
        var latency, broken := ReceiveAck(fd, event.chunks, event.end);
        if broken {
          CloseClient(fd);
        } else if latency.Some? {
          latencies := latencies + [latency.value];
        }
      }
    }

    method HandleEvents(events: seq<PollEvent>)
      modifies this
      ensures View() == HandlePolls(env, old(View()), events)
    {
      for i := 0 to |events|
        invariant View() == HandlePolls(env, old(View()), events[..i])
      {
        HandleEvent(events[i]);
        assert events[..i + 1][..i] == events[..i];
      }
      assert events[..|events|] == events;
    }

    /** Credit for the time since the last tick, before the deadline only. */
    method AccrueCredit(cfg: Config, currentMs: u64)
      requires lastTickMs <= currentMs
      modifies this`lastTickMs, this`sendCredit, this`log
      ensures View() == Accrue(cfg, old(View()), currentMs)
    {
      var deltaMs: nat := currentMs - lastTickMs;
      lastTickMs := currentMs;
      if currentMs < cfg.endMs {
        sendCredit := sendCredit + cfg.rate as real * deltaMs as real / 1000.0;
        log := log.(creditedUntil := currentMs);
      }
    }

    /** One turn of the loop body, the clock having been read once by the loop condition. */
    method LoopBody(cfg: Config, poll: Poll)
      requires ticks > 0 && lastTickMs <= env.clock(ticks) && Listed(View())
      modifies this
      ensures View() == Turn(env, cfg, old(View()).(ticks := old(ticks) - 1), poll)
      ensures lastTickMs == env.clock(old(ticks))
      ensures log.creditedUntil == if lastTickMs < cfg.endMs then lastTickMs else old(log.creditedUntil)
    {
      hide SendLoop, HandlePolls, Accrue;
      TurnKeepsTime(env, cfg, View().(ticks := ticks - 1), poll);
      AccrueFields(cfg, View().(ticks := ticks + 1), env.clock(ticks));
      var currentMs := NowMs();
      AccrueCredit(cfg, currentMs);
      SendDue(cfg.endMs, currentMs);
      if halted { return; }
      match poll
      case Interrupted =>
      case PollFailed => halted := true;
      case Events(events) => HandleEvents(events);
    }

    /**
     The traffic loop over any sequence of epoll results: the accounts are exact at
     every point, and the loop is left exactly when nothing is owed.
     */
    method RunTraffic(cfg: Config, polls: seq<Poll>) returns (turns: nat, exited: bool)
      requires Monotone(env) && Begins(env, cfg, View())
      modifies this
      ensures turns <= |polls| && InvOrHalted(env, cfg, View())
      ensures var t := Turns(env, cfg, old(View()), polls[..turns]);
              View() == if exited then t.(ticks := t.ticks + 1) else t
      ensures exited ==> Waiting(clients) == {} && log.lost == 0 && |latencies| == sent
      ensures !exited ==> halted || turns == |polls|
    {
      hide Turn, Listed, Conserved, Funded, OnTime, Fair;
      turns, exited := 0, false;
      BeginsInv(env, cfg, View());
      BeginsConfig(env, cfg, View());
      assert polls[..0] == [];
      while turns < |polls| && !halted
        invariant turns <= |polls| && InvOrHalted(env, cfg, View())
        invariant View() == Turns(env, cfg, old(View()), polls[..turns])
      {
        ghost var t := View();
        OneMoreReading(env, cfg, t);
        ExitsExactlyWhenDrained(env, cfg, t);
        var now := NowMs();
        if !(now < cfg.endMs || |latencies| < sent) {
          Drained(env, cfg, t);
          exited := true;
          return;
        }
        TurnInv(env, cfg, t, polls[turns]);
        assert polls[..turns + 1][..turns] == polls[..turns];
        LoopBody(cfg, polls[turns]);
        turns := turns + 1;
      }
    }
  }

  // ---- what the loops rely on ----

  /** Unwinding: the outcome differs from the goal only in how many chunks were used. */
  predicate SameEnd(a: AckOutcome, b: AckOutcome) {
    match (a, b)
    case (GotAck(c, l, _), GotAck(d, m, _)) => c == d && l == m
    case (StillWaiting(c), StillWaiting(d)) => c == d
    case (Broken(c), Broken(d)) => c == d
    case _ => false
  }

  /** A client that is connecting and reported writable is ready afterwards exactly if it connected, and absent otherwise; a failed one is absent. */
  lemma ConnectDecides(clients: map<int, ClientState>, event: ConnectEvent)
    requires event.fd in clients
    ensures var after := AfterConnect(clients, event); var fd := event.fd; var c := clients[fd];
            && (event.failed ==> fd !in after)
            && (!event.failed && c.phase == Connecting && event.writable ==>
                  (if event.connected then fd in after && after[fd] == c.(phase := Ready) else fd !in after))
            && (!event.failed && !(c.phase == Connecting && event.writable) ==> fd in after && after[fd] == c)
            && (forall gd :: gd != fd ==> (gd in after <==> gd in clients))
            && (forall gd :: gd in clients && gd != fd ==> after[gd] == clients[gd])
  {
  }

  lemma ReadNothing(client: ClientState, chunks: seq<string>, end: RecvEnd)
    requires chunks == []
    ensures ReceiveAck(client, chunks, end) == if end.NothingMore? then StillWaiting(client) else Broken(client)
  {
  }

  lemma ReadOneChunk(client: ClientState, chunks: seq<string>, end: RecvEnd)
    requires chunks != []
    ensures var (next, line) := AfterChunk(client, chunks[0]);
            SameEnd(ReceiveAck(client, chunks, end),
                    if line.Some? && IsAckLine(line.value) then GotAck(next.(phase := Ready), line.value, 1)
                    else ReceiveAck(next, chunks[1..], end))
  {
  }

  lemma AttemptFields(env: Env, t: Traffic)
    requires t.order != [] && ChosenIsReady(t) && Listed(t)
    ensures Listed(Attempt(env, t))
    ensures Attempt(env, t).sent != t.sent ==> Attempt(env, t).credit == t.credit - 1.0
  {
  }

  lemma AccrueFields(cfg: Config, t: Traffic, currentMs: nat)
    ensures var after := Accrue(cfg, t, currentMs);
            after.clients == t.clients && after.order == t.order && after.ticks == t.ticks && after.halted == t.halted
  {
  }

  lemma UndoIncrement(n: u64)
    ensures Wrap(Wrap(n + 1) - 1) == n
  {
  }

  lemma {:induction false} NewClientsAreUnused(fds: seq<int>)
    requires Distinct(fds)
    ensures var clients := NewClients(fds);
            && |clients| == |fds|
            && (forall fd :: fd in clients <==> fd in fds)
            && (forall fd :: fd in clients ==> clients[fd] == NewClient(fd, clients[fd].index))
  {
    if fds != [] {
      var front, fd := fds[..|fds| - 1], fds[|fds| - 1];
      assert fds == front + [fd] && fd !in front;
      NewClientsAreUnused(front);
      AddingOne(NewClients(front), fd, NewClient(fd, |front|));
    }
  }

  lemma AddingOne(m: map<int, ClientState>, fd: int, c: ClientState)
    requires fd !in m
    ensures |m[fd := c]| == |m| + 1
  {
    assert m[fd := c].Keys == m.Keys + {fd};
  }

  lemma ReplacingKeepsSize(m: map<int, ClientState>, fd: int, c: ClientState)
    requires fd in m
    ensures |m[fd := c]| == |m|
  {
    assert m[fd := c].Keys == m.Keys;
  }

  lemma RemovingOne(m: map<int, ClientState>, fd: int)
    requires fd in m
    ensures |m - {fd}| == |m| - 1
  {
    assert (m - {fd}).Keys == m.Keys - {fd};
  }

  /** Reading the clock once more does not disturb the invariant. */
  lemma OneMoreReading(env: Env, cfg: Config, t: Traffic)
    requires Monotone(env) && TrafficInv(env, cfg, t)
    ensures TrafficInv(env, cfg, t.(ticks := t.ticks + 1))
    ensures Listed(t) && t.lastTick <= env.clock(t.ticks + 1)
  {
    assert env.clock(t.ticks) <= env.clock(t.ticks + 1);
  }

  lemma Drained(env: Env, cfg: Config, t: Traffic)
    requires TrafficInv(env, cfg, t) && !Continues(env, t, cfg.endMs)
    ensures Waiting(t.clients) == {} && t.log.lost == 0 && |t.latencies| == t.sent
  {
    ExitsExactlyWhenDrained(env, cfg, t);
  }
}
