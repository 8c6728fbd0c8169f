/**
 Which bytes belong to which connection, computed from the events alone: who owns a
 descriptor when, and what arrived on it. The record the server's theorems speak
 about holds exactly these bytes.
 */
module ServerBytes {
  import opened Text
  import opened ServerSpec
  import opened ServerInvariant
  import opened ServerReports
  import opened ServerRuns

  // ---- reading the events ----

  /** Connections accepted so far, and the connection each open descriptor belongs to. */
  datatype Wiring = Wiring(accepted: nat, owner: map<int, nat>)

  function Connect(wiring: Wiring, fds: seq<int>): Wiring {
    if fds == [] then wiring
    else
      var before := Connect(wiring, fds[..|fds| - 1]);
      Wiring(before.accepted + 1, before.owner[fds[|fds| - 1] := before.accepted])
  }

  /** An accept gives a descriptor to the next connection, the end of a connection takes it back. */
  function Wired(events: seq<Event>): Wiring {
    if events == [] then Wiring(0, map[])
    else
      var before := Wired(Front(events));
      match Last(events)
      case Incoming(fds) => Connect(before, fds)
      case Readable(fd, _, stillOpen) => if stillOpen then before else before.(owner := before.owner - {fd})
  }

  /** All the chunks of all the readable events on a connection, one after the other. */
  function Arrived(events: seq<Event>, c: nat): string {
    if events == [] then ""
    else
      var owner := Wired(Front(events)).owner;
      match Last(events)
      case Readable(fd, chunks, _) =>
        Arrived(Front(events), c) + (if fd in owner && owner[fd] == c then Join(chunks) else "")
      case Incoming(_) => Arrived(Front(events), c)
  }

  function Flat(batches: seq<seq<Event>>): seq<Event> {
    if batches == [] then [] else Flat(Front(batches)) + Last(batches)
  }

  lemma {:induction false} ConnectGrows(wiring: Wiring, fds: seq<int>)
    requires forall fd :: fd in wiring.owner ==> wiring.owner[fd] < wiring.accepted
    ensures var after := Connect(wiring, fds);
            && after.accepted == wiring.accepted + |fds|
            && forall fd :: fd in after.owner ==> after.owner[fd] < after.accepted
  {
    if fds != [] {
      ConnectGrows(wiring, fds[..|fds| - 1]);
    }
  }

  /** Nothing arrives for a connection that has not been accepted yet. */
  lemma {:induction false} NothingBeforeItsTime(events: seq<Event>, c: nat)
    ensures forall fd :: fd in Wired(events).owner ==> Wired(events).owner[fd] < Wired(events).accepted
    ensures c >= Wired(events).accepted ==> Arrived(events, c) == ""
  {
    if events != [] {
      NothingBeforeItsTime(Front(events), c);
      if Last(events).Incoming? {
        ConnectGrows(Wired(Front(events)), Last(events).fds);
      }
    }
  }

  // ---- the server's record ----

  /** The record agrees with what the events say. */
  ghost predicate RecordsArrivals(s: State, events: seq<Event>) {
    && s.core.world.descriptors == Wired(events).owner
    && s.core.counters.totalAccepted == Wired(events).accepted
    && (forall c: nat :: c in s.core.world.conns <==> c < Wired(events).accepted)
    && (forall c: nat :: c in s.core.world.conns ==> s.core.world.conns[c].received == Arrived(events, c))
  }

  /** The bytes of a readable event go to one connection's record, and the descriptors stay as they are. */
  ghost predicate Receives(before: Core, after: Core, c: nat, data: string) {
    && after.world.descriptors == before.world.descriptors
    && after.world.conns.Keys == before.world.conns.Keys
    && (forall d :: d in before.world.conns ==>
          after.world.conns[d].received == before.world.conns[d].received + (if d == c then data else ""))
    && after.counters.totalAccepted == before.counters.totalAccepted
    && after.counters.totalDisconnected == before.counters.totalDisconnected
  }

  lemma DrainedReceives(env: Env, s: State, fd: int, data: string)
    requires CoreInv(s.core) && SameKeys(s) && fd in s.buffers
    ensures s.core.world.descriptors[fd] in s.core.world.conns
    ensures Receives(s.core, Drain(env, Receive(s, fd, data), fd).core, s.core.world.descriptors[fd], data)
  {
    ReceiveCore(s, fd, data);
    ReceiveCounts(s, fd, data);
    hide HandleLines, CoreInv, SameKeys, Lines, Rest, Grown, Receive, Handled, Receives;
    var received := Receive(s, fd, data);
    HandleLinesInv(env, received.core, fd, Lines(received.buffers[fd]));
    var after := Drain(env, received, fd).core;
    hide Drain;
    ReceivedThenKept(s.core, received.core, after, s.core.world.descriptors[fd], data);
  }

  lemma ReceiveCounts(s: State, fd: int, data: string)
    requires fd in s.buffers
    ensures Receive(s, fd, data).core.counters == s.core.counters
  {
  }

  lemma ReceivedThenKept(before: Core, mid: Core, after: Core, c: nat, data: string)
    requires c in before.world.conns && mid.counters == before.counters
    requires mid.world.descriptors == before.world.descriptors
    requires mid.world.conns
          == before.world.conns[c := before.world.conns[c].(received := before.world.conns[c].received + data)]
    requires after.world.descriptors == mid.world.descriptors && after.world.conns.Keys == mid.world.conns.Keys
    requires forall d :: d in mid.world.conns ==> after.world.conns[d].received == mid.world.conns[d].received
    requires after.counters.totalAccepted == mid.counters.totalAccepted
    requires after.counters.totalDisconnected == mid.counters.totalDisconnected
    ensures Receives(before, after, c, data)
  {
    forall d: nat | d in before.world.conns
      ensures before.world.conns[d].received + "" == before.world.conns[d].received
    {
    }
  }

  /**
   A readable event: every byte of every chunk is received on the descriptor's own
   connection and on no other. When the stream has ended the descriptor is in none
   of the three collections afterwards, nor open, and one more disconnect is
   counted; otherwise it stays in all it was in.
   */
  lemma ReadableReceivesAll(env: Env, s: State, fd: int, chunks: seq<string>, stillOpen: bool)
    requires Healthy(env, s) && fd in s.core.world.descriptors
    ensures var after := Step(env, s, Readable(fd, chunks, stillOpen)); var w, w' := s.core.world, after.core.world;
            && w.descriptors[fd] in w.conns && w'.conns.Keys == w.conns.Keys
            && (forall c :: c in w.conns ==>
                  w'.conns[c].received == w.conns[c].received + (if c == w.descriptors[fd] then Join(chunks) else ""))
            && w'.descriptors == (if stillOpen then w.descriptors else w.descriptors - {fd})
            && after.core.counters.totalAccepted == s.core.counters.totalAccepted
            && after.core.counters.totalDisconnected == s.core.counters.totalDisconnected + (if stillOpen then 0 else 1)
            && (fd in after.buffers <==> stillOpen) && (fd in after.telemetry <==> stillOpen)
            && (!stillOpen ==> fd !in after.core.viewers)
  {
    HealthyParts(env, s);
    assert CoreInv(s.core) && SameKeys(s);
    hide Healthy, Inv, CoreInv, Timed, Drain, Receive, Join;
    DrainedReceives(env, s, fd, Join(chunks));
    DrainedKeys(env, s, fd, Join(chunks));
  }

  lemma DrainedKeys(env: Env, s: State, fd: int, data: string)
    requires fd in s.buffers
    ensures var after := Drain(env, Receive(s, fd, data), fd);
            after.buffers.Keys == s.buffers.Keys && after.telemetry == s.telemetry
  {
    hide HandleLines;
  }

  // ---- over runs ----

  lemma AcceptRecords(s: State, fd: int, wiring: Wiring)
    requires s.core.world.descriptors == wiring.owner && s.core.counters.totalAccepted == wiring.accepted
    ensures var after := Accept(s, fd);
            && after.core.world.descriptors == wiring.owner[fd := wiring.accepted]
            && after.core.counters.totalAccepted == wiring.accepted + 1
            && after.core.world.conns == s.core.world.conns[wiring.accepted := Conn("", [])]
  {
  }

  lemma {:induction false} AcceptAllRecords(s: State, fds: seq<int>, events: seq<Event>)
    requires RecordsArrivals(s, events)
    ensures var after := AcceptAll(s, fds); var wiring := Connect(Wired(events), fds);
            && after.core.world.descriptors == wiring.owner && after.core.counters.totalAccepted == wiring.accepted
            && (forall c: nat :: c in after.core.world.conns <==> c < wiring.accepted)
            && (forall c: nat :: c in after.core.world.conns ==> after.core.world.conns[c].received == Arrived(events, c))
            && Wired(events).accepted <= wiring.accepted
  {
    hide Accept, Arrived, Wired;
    if fds != [] {
      var front := fds[..|fds| - 1];
      AcceptAllRecords(s, front, events);
      var mid, wiring := AcceptAll(s, front), Connect(Wired(events), front);
      AcceptRecords(mid, fds[|fds| - 1], wiring);
      NothingBeforeItsTime(events, wiring.accepted);
    }
  }

  lemma WiredSnoc(events: seq<Event>, event: Event)
    ensures Front(events + [event]) == events && Last(events + [event]) == event
  {
    assert (events + [event])[..|events|] == events;
  }

  /** Every event the operating system can deliver keeps the record in step with the events. */
  lemma StepRecords(env: Env, s: State, event: Event, events: seq<Event>)
    requires Healthy(env, s) && Enabled(s, event) && RecordsArrivals(s, events)
    ensures RecordsArrivals(Step(env, s, event), events + [event])
  {
    WiredSnoc(events, event);
    hide Healthy, Join;
    match event
    case Incoming(fds) => AcceptAllRecords(s, fds, events);
    case Readable(fd, chunks, stillOpen) =>
      ReadableReceivesAll(env, s, fd, chunks, stillOpen);
      hide Step;
      forall c: nat | c in s.core.world.conns ensures Arrived(events, c) + "" == Arrived(events, c) {
      }
  }

  lemma {:induction false} StepsRecord(env: Env, s: State, events: seq<Event>, i: nat, before: seq<Event>)
    requires Monotone(env) && Healthy(env, s) && PossibleBatch(env, s, events) && i <= |events|
    requires RecordsArrivals(s, before)
    ensures RecordsArrivals(Steps(env, s, events[..i]), before + events[..i])
  {
    hide Healthy, RecordsArrivals, Step, Grown;
    if i == 0 {
      assert events[..0] == [] && before + [] == before;
    } else {
      StepsRecord(env, s, events, i - 1, before);
      BatchMeetsNoUnknownDescriptor(env, s, events, i - 1);
      var mid := Steps(env, s, events[..i - 1]);
      assert Enabled(mid, events[i - 1]);
      StepRecords(env, mid, events[i - 1], before + events[..i - 1]);
      StepsSnoc(env, s, events, i - 1);
      assert (before + events[..i - 1]) + [events[i - 1]] == before + events[..i];
    }
  }

  lemma ReportRecords(env: Env, s: State, events: seq<Event>)
    requires RecordsArrivals(s, events)
    ensures RecordsArrivals(ReportIfDue(env, s), events)
  {
    hide Arrived, Wired;
    var nowMs := env.clock(s.core.world.ticks);
    PublishKeeps(env, Tick(s.core), |s.telemetry|, nowMs);
    hide Publish;
  }

  /**
   In every run, what the server recorded as received on a connection is what arrived
   on it, chunk after chunk, through all its events; and descriptors belong to the
   connections the events say.
   */
  lemma {:induction false} RunRecordsArrivals(env: Env, batches: seq<seq<Event>>)
    requires PossibleRun(env, batches)
    ensures RecordsArrivals(Run(env, batches), Flat(batches))
  {
    hide Healthy, PossibleBatch;
    if batches != [] {
      var front, last := batches[..|batches| - 1], batches[|batches| - 1];
      forall i | 0 <= i < |front| ensures PossibleBatch(env, Run(env, front[..i]), front[i]) {
        assert front[..i] == batches[..i];
      }
      RunRecordsArrivals(env, front);
      RunHealthy(env, front);
      var s := Run(env, front);
      assert batches[..|front|] == front;
      StepsRecord(env, s, last, |last|, Flat(front));
      assert last[..|last|] == last;
      hide RecordsArrivals;
      ReportRecords(env, Steps(env, s, last), Flat(front) + last);
    }
  }
}
