/**
 Whole runs of the server: every event, batch and run keeps the invariant, no
 batch of distinct registered descriptors meets an unknown one, and the
 consequences a user of the server sees.
 */
module ServerRuns {
  import opened Text
  import opened Decimal
  import opened StatusCodec
  import opened StatusStore
  import opened ServerSpec
  import opened ServerInvariant
  import opened ServerReports
  import MetricsCodec

  ghost predicate Healthy(env: Env, s: State) { Inv(s) && Timed(env, s.core) }

  // ---- one event ----

  lemma ReceiveTimed(env: Env, s: State, fd: int, data: string)
    requires Timed(env, s.core) && fd in s.buffers
    ensures Timed(env, Receive(s, fd, data).core)
  {
  }

  lemma DisconnectTimed(env: Env, s: State, fd: int)
    requires Monotone(env) && Timed(env, s.core)
    ensures Timed(env, Disconnect(s, fd).core)
  {
    TimedAfter(env, s.core, Disconnect(s, fd).core, Closed(ConnOf(s.core.world, fd)));
  }

  lemma AcceptTimed(env: Env, s: State, fd: int)
    requires Monotone(env) && Timed(env, s.core)
    ensures Timed(env, Accept(s, fd).core)
  {
    TimedAfter(env, s.core, Accept(s, fd).core, Opened(s.core.counters.totalAccepted));
  }

  lemma {:induction false} AcceptAllHealthy(env: Env, s: State, fds: seq<int>)
    requires Monotone(env) && Healthy(env, s) && FreshDescriptors(s.core.world, fds)
    ensures var after := AcceptAll(s, fds);
            && Healthy(env, after)
            && Grown(s.core.world.conns, after.core.world.conns)
            && (forall gd :: gd in after.core.world.descriptors <==> gd in s.core.world.descriptors || gd in fds)
            && (forall gd :: gd in s.core.world.descriptors ==>
                  gd in after.core.world.descriptors && after.core.world.descriptors[gd] == s.core.world.descriptors[gd])
  {
    hide Accept, Inv, Timed, Grown;
    if fds == [] {
      GrownReflexive(s.core.world.conns);
    } else {
      var front, fd := fds[..|fds| - 1], fds[|fds| - 1];
      assert fds == front + [fd];
      AcceptAllHealthy(env, s, front);
      var mid := AcceptAll(s, front);
      AcceptInv(mid, fd);
      AcceptTimed(env, mid, fd);
      GrownTransitive(s.core.world.conns, mid.core.world.conns, Accept(mid, fd).core.world.conns);
    }
  }

  lemma DisconnectFields(s: State, fd: int)
    ensures var after := Disconnect(s, fd);
            && after.buffers == s.buffers - {fd}
            && after.core.world.descriptors == s.core.world.descriptors - {fd}
            && after.core.world.conns == s.core.world.conns
  {
  }

  lemma ReadableHealthy(env: Env, s: State, fd: int, chunks: seq<string>, stillOpen: bool)
    requires Monotone(env) && Healthy(env, s) && fd in s.buffers
    ensures var after := Step(env, s, Readable(fd, chunks, stillOpen));
            && Healthy(env, after)
            && Grown(s.core.world.conns, after.core.world.conns)
            && (forall gd :: gd in s.core.world.descriptors && gd != fd ==>
                  gd in after.core.world.descriptors && after.core.world.descriptors[gd] == s.core.world.descriptors[gd])
  {
    hide Receive, Drain, Disconnect, Inv, CoreInv, Framed, SameKeys, Timed, Grown, Healthy;
    HealthyParts(env, s);
    var received := Receive(s, fd, Join(chunks));
    ReceiveInv(s, fd, Join(chunks));
    ReceiveTimed(env, s, fd, Join(chunks));
    ReceiveFields(s, fd, Join(chunks));
    var drained := Drain(env, received, fd);
    DrainInv(env, received, fd);
    DrainFields(env, received, fd);
    GrownTransitive(s.core.world.conns, received.core.world.conns, drained.core.world.conns);
    if stillOpen {
      HealthyFrom(env, drained);
    } else {
      DisconnectInv(drained, fd);
      DisconnectTimed(env, drained, fd);
      DisconnectFields(drained, fd);
      HealthyFrom(env, Disconnect(drained, fd));
    }
  }

  lemma HealthyParts(env: Env, s: State)
    requires Healthy(env, s)
    ensures Inv(s) && Timed(env, s.core) && Settled(s) && s.buffers.Keys == s.core.world.descriptors.Keys
  {
  }

  lemma HealthyFrom(env: Env, s: State)
    requires Unsettled(s) && Settled(s) && Timed(env, s.core)
    ensures Healthy(env, s)
  {
  }

  lemma ReceiveFields(s: State, fd: int, data: string)
    requires fd in s.buffers
    ensures var after := Receive(s, fd, data);
            && after.buffers.Keys == s.buffers.Keys && after.core.world.descriptors == s.core.world.descriptors
  {
  }

  lemma DrainFields(env: Env, s: State, fd: int)
    requires Monotone(env) && Timed(env, s.core) && CoreInv(s.core) && fd in s.buffers && fd in s.core.world.descriptors
    ensures var after := Drain(env, s, fd);
            && after.buffers.Keys == s.buffers.Keys && after.core.world.descriptors == s.core.world.descriptors
            && Timed(env, after.core)
  {
    hide CoreInv, Timed;
    HandleLinesInv(env, s.core, fd, Lines(s.buffers[fd]));
    HandleLinesTimed(env, s.core, fd, Lines(s.buffers[fd]));
  }

  /** Every event the operating system can deliver keeps the server healthy. */
  lemma StepHealthy(env: Env, s: State, event: Event)
    requires Monotone(env) && Healthy(env, s) && Enabled(s, event)
    ensures Healthy(env, Step(env, s, event))
    ensures Grown(s.core.world.conns, Step(env, s, event).core.world.conns)
    ensures forall gd :: gd in s.core.world.descriptors && (event.Readable? ==> gd != event.fd) ==>
              gd in Step(env, s, event).core.world.descriptors
              && Step(env, s, event).core.world.descriptors[gd] == s.core.world.descriptors[gd]
  {
    HealthyParts(env, s);
    hide Healthy, Inv, Timed, Grown;
    match event
    case Incoming(fds) => AcceptAllHealthy(env, s, fds);
    case Readable(fd, chunks, stillOpen) => ReadableHealthy(env, s, fd, chunks, stillOpen);
  }

  lemma ReportKeepsFraming(s: State, after: State, e: Entry)
    requires Framed(s) && SameKeys(s) && Settled(s) && after == s.(core := after.core)
    requires Keeps(s.core, after.core, e)
    requires forall d: nat :: Handled(after.core.world.trace, d) == Handled(s.core.world.trace, d)
    ensures Framed(after) && SameKeys(after) && Settled(after)
  {
    hide Lines, Rest, Handled, Grown;
    forall fd | fd in after.buffers && after.core.world.descriptors[fd] in after.core.world.conns
      ensures FramedAt(after.core.world, after.core.world.descriptors[fd], after.buffers[fd])
    {
      assert FramedAt(s.core.world, s.core.world.descriptors[fd], s.buffers[fd]);
    }
  }

  /** A report keeps the server healthy. */
  lemma ReportHealthy(env: Env, s: State)
    requires Monotone(env) && Healthy(env, s)
    ensures Healthy(env, ReportIfDue(env, s))
    ensures Grown(s.core.world.conns, ReportIfDue(env, s).core.world.conns)
    ensures ReportIfDue(env, s).core.world.descriptors == s.core.world.descriptors
  {
    var nowMs := env.clock(s.core.world.ticks);
    ReportTimed(env, s);
    TickInv(s.core);
    if nowMs - s.core.counters.lastReportMs >= 1000 {
      DueReportHealthy(env, s, nowMs);
    } else {
      GrownReflexive(s.core.world.conns);
      TickKeepsFraming(s);
    }
  }

  lemma TickKeepsFraming(s: State)
    requires Framed(s) && SameKeys(s) && Settled(s)
    ensures var after := s.(core := Tick(s.core)); Framed(after) && SameKeys(after) && Settled(after)
  {
    hide Lines, Rest, Handled;
    var after := s.(core := Tick(s.core));
    forall fd | fd in after.buffers && after.core.world.descriptors[fd] in after.core.world.conns
      ensures FramedAt(after.core.world, after.core.world.descriptors[fd], after.buffers[fd])
    {
      assert FramedAt(s.core.world, s.core.world.descriptors[fd], s.buffers[fd]);
    }
  }

  lemma DueReportHealthy(env: Env, s: State, nowMs: nat)
    requires Healthy(env, s) && CoreInv(Tick(s.core))
    requires nowMs == env.clock(s.core.world.ticks) && nowMs - s.core.counters.lastReportMs >= 1000
    ensures Inv(ReportIfDue(env, s))
    ensures Grown(s.core.world.conns, ReportIfDue(env, s).core.world.conns)
    ensures ReportIfDue(env, s).core.world.descriptors == s.core.world.descriptors
  {
    hide CoreInv, Timed, Publish, Handled, Snapshot, Framed, SameKeys, Settled, Grown;
    var ticked := Tick(s.core);
    PublishKeeps(env, ticked, |s.telemetry|, nowMs);
    PublishInv(env, ticked, |s.telemetry|, nowMs);
    var metrics := Snapshot(ticked.counters, |s.telemetry|, |ticked.store|, nowMs);
    var e := Reported(metrics, ticked.counters.lastReportMs, nowMs);
    TickKeepsFraming(s);
    ReportKeepsFraming(s.(core := ticked), ReportIfDue(env, s), e);
  }

  lemma TickInv(core: Core)
    requires CoreInv(core)
    ensures CoreInv(Tick(core))
  {
    hide Watching, Expect, Offered, Handled, Statuses, LastById;
  }

  // ---- batches and runs ----

  lemma StepsSnoc(env: Env, s: State, events: seq<Event>, i: nat)
    requires i < |events|
    ensures Steps(env, s, events[..i + 1]) == Step(env, Steps(env, s, events[..i]), events[i])
  {
    assert events[..i + 1][..i] == events[..i];
  }

  /**
   Inside a batch of distinct registered descriptors the unknown-descriptor
   branch is never taken: when an event is handled its descriptor still belongs
   to the connection it belonged to when the batch was reported, whatever was
   accepted or closed in between.
   */
  lemma {:induction false} BatchMeetsNoUnknownDescriptor(env: Env, s: State, events: seq<Event>, i: nat)
    requires Monotone(env) && Healthy(env, s) && PossibleBatch(env, s, events) && i <= |events|
    ensures var mid := Steps(env, s, events[..i]);
            && Healthy(env, mid)
            && Grown(s.core.world.conns, mid.core.world.conns)
            && (forall j :: i <= j < |events| && events[j].Readable? ==>
                  && events[j].fd in mid.buffers && events[j].fd in mid.core.world.descriptors
                  && mid.core.world.descriptors[events[j].fd] == s.core.world.descriptors[events[j].fd])
  {
    HealthyParts(env, s);
    hide Healthy, Inv, Timed, Grown, Step;
    if i == 0 {
      GrownReflexive(s.core.world.conns);
      assert events[..0] == [];
    } else {
      BatchMeetsNoUnknownDescriptor(env, s, events, i - 1);
      var before := Steps(env, s, events[..i - 1]);
      StepsSnoc(env, s, events, i - 1);
      assert Enabled(before, events[i - 1]);
      StepHealthy(env, before, events[i - 1]);
      var mid := Step(env, before, events[i - 1]);
      GrownTransitive(s.core.world.conns, before.core.world.conns, mid.core.world.conns);
      HealthyParts(env, mid);
      forall j | i <= j < |events| && events[j].Readable?
        ensures events[j].fd in mid.core.world.descriptors
        ensures mid.core.world.descriptors[events[j].fd] == s.core.world.descriptors[events[j].fd]
      {
        assert events[j].fd in before.core.world.descriptors;
      }
    }
  }

  lemma InitHealthy(env: Env)
    requires Monotone(env)
    ensures Healthy(env, Init(env))
  {
    var s := Init(env);
    assert env.clock(0) <= env.clock(1);
    assert LastById(Statuses([])) == map[];
  }

  lemma BatchHealthy(env: Env, s: State, events: seq<Event>)
    requires Monotone(env) && Healthy(env, s) && PossibleBatch(env, s, events)
    ensures Healthy(env, RunBatch(env, s, events))
  {
    hide Healthy;
    BatchMeetsNoUnknownDescriptor(env, s, events, |events|);
    assert events[..|events|] == events;
    ReportHealthy(env, Steps(env, s, events));
  }

  /** Every reachable state is healthy. */
  lemma {:induction false} RunHealthy(env: Env, batches: seq<seq<Event>>)
    requires PossibleRun(env, batches)
    ensures Healthy(env, Run(env, batches))
  {
    hide Healthy, PossibleBatch;
    if batches == [] {
      InitHealthy(env);
    } else {
      var front := batches[..|batches| - 1];
      forall i | 0 <= i < |front| ensures PossibleBatch(env, Run(env, front[..i]), front[i]) {
        assert front[..i] == batches[..i];
      }
      RunHealthy(env, front);
      assert batches[..|front|] == front;
      BatchHealthy(env, Run(env, front), batches[|front|]);
    }
  }
}
