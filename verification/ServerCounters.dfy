/**
 The two counters that depend on what `send` answered: `ack_sent` is the number of
 acknowledgements of which something was written, `broadcast_errors` the number of
 relayed lines and reports refused with a hard error, over all connections ever.
 */
module ServerCounters {
  import opened Text
  import opened Decimal
  import opened StatusCodec
  import opened ServerSpec
  import opened ServerInvariant
  import opened ServerReports
  import opened ServerRuns

  datatype Kind = WrittenAck | RefusedBroadcast

  predicate Is(kind: Kind, a: Attempt) {
    match kind
    case WrittenAck => a.msg.Ack? && a.result.Written?
    case RefusedBroadcast => !a.msg.Ack? && a.result.HardError?
  }

  function CountIn(kind: Kind, sends: seq<Attempt>): nat {
    if sends == [] then 0 else CountIn(kind, Front(sends)) + (if Is(kind, Last(sends)) then 1 else 0)
  }

  /** Over the connections numbered below `n`. */
  function Total(kind: Kind, conns: map<nat, Conn>, n: nat): nat {
    if n == 0 then 0
    else Total(kind, conns, n - 1) + (if n - 1 in conns then CountIn(kind, conns[n - 1].sends) else 0)
  }

  ghost predicate CountersMatchWire(core: Core) {
    var conns, n := core.world.conns, core.counters.totalAccepted;
    && core.counters.ackSent == Total(WrittenAck, conns, n)
    && core.counters.broadcastErrors == Total(RefusedBroadcast, conns, n)
  }

  // ---- totals ----

  lemma {:induction false} TotalDependsOnSends(kind: Kind, a: map<nat, Conn>, b: map<nat, Conn>, n: nat)
    requires a.Keys == b.Keys && forall c :: c in a ==> a[c].sends == b[c].sends
    ensures Total(kind, a, n) == Total(kind, b, n)
  {
    if n > 0 {
      TotalDependsOnSends(kind, a, b, n - 1);
    }
  }

  lemma {:induction false} TotalIgnoresTheRest(kind: Kind, a: map<nat, Conn>, c: nat, conn: Conn, n: nat)
    requires n <= c
    ensures Total(kind, a[c := conn], n) == Total(kind, a, n)
  {
    if n > 0 {
      TotalIgnoresTheRest(kind, a, c, conn, n - 1);
    }
  }

  /** The connections on which a message counts. */
  function Hits(kind: Kind, env: Env, w: World, fds: set<int>, msg: Msg, n: nat): set<nat> {
    set c | c in Targets(w, fds) && c in w.conns && c < n && Is(kind, Attempt(msg, Outcome(env, w, c)))
  }

  lemma CountSnoc(kind: Kind, sends: seq<Attempt>, a: Attempt)
    ensures CountIn(kind, sends + [a]) == CountIn(kind, sends) + (if Is(kind, a) then 1 else 0)
  {
    assert Front(sends + [a]) == sends;
  }

  lemma {:induction false} TotalAfterSendAll(kind: Kind, env: Env, w: World, fds: set<int>, msg: Msg, n: nat)
    ensures Total(kind, SendAll(env, w, fds, msg).conns, n) == Total(kind, w.conns, n) + |Hits(kind, env, w, fds, msg, n)|
  {
    hide Is, CountIn;
    if n == 0 {
      assert Hits(kind, env, w, fds, msg, 0) == {};
    } else {
      TotalAfterSendAll(kind, env, w, fds, msg, n - 1);
      HitsOneMore(kind, env, w, fds, msg, n - 1);
      if n - 1 in w.conns {
        CountSnoc(kind, w.conns[n - 1].sends, Attempt(msg, Outcome(env, w, n - 1)));
      }
    }
  }

  lemma HitsOneMore(kind: Kind, env: Env, w: World, fds: set<int>, msg: Msg, n: nat)
    ensures |Hits(kind, env, w, fds, msg, n + 1)| == |Hits(kind, env, w, fds, msg, n)|
      + (if n in w.conns && n in Targets(w, fds) && Is(kind, Attempt(msg, Outcome(env, w, n))) then 1 else 0)
  {
    hide Is, Outcome, Targets;
    var before, after := Hits(kind, env, w, fds, msg, n), Hits(kind, env, w, fds, msg, n + 1);
    if n in after {
      assert after == before + {n};
    } else {
      assert after == before;
    }
  }

  lemma {:induction false} ImageSize(descriptors: map<int, nat>, fds: set<int>)
    requires fds <= descriptors.Keys
    requires forall fd, gd :: fd in fds && gd in fds && descriptors[fd] == descriptors[gd] ==> fd == gd
    ensures |set fd | fd in fds :: descriptors[fd]| == |fds|
  {
    var image := set fd | fd in fds :: descriptors[fd];
    if fds != {} {
      SomeDescriptor(fds);
      var fd :| fd in fds;
      var rest := fds - {fd};
      ImageSize(descriptors, rest);
      assert image == (set gd | gd in rest :: descriptors[gd]) + {descriptors[fd]};
    } else {
      assert image == {};
    }
  }

  /** On open descriptors the failures counted are the connections that refused. */
  lemma FailuresAreHits(env: Env, core: Core, fds: set<int>, msg: Msg)
    requires Linked(core) && fds <= core.world.descriptors.Keys && !msg.Ack?
    ensures Failures(env, core.world, fds) == |Hits(RefusedBroadcast, env, core.world, fds, msg, core.counters.totalAccepted)|
  {
    var w := core.world;
    var failed := set fd | fd in fds && SendOutcome(env, w, fd).HardError?;
    ImageSize(w.descriptors, failed);
    assert (set fd | fd in failed :: w.descriptors[fd])
        == Hits(RefusedBroadcast, env, w, fds, msg, core.counters.totalAccepted);
  }

  lemma NoHits(kind: Kind, env: Env, w: World, fds: set<int>, msg: Msg, n: nat)
    requires kind == (if msg.Ack? then RefusedBroadcast else WrittenAck)
    ensures Hits(kind, env, w, fds, msg, n) == {}
  {
  }

  // ---- steps ----

  lemma BroadcastMatches(env: Env, core: Core, source: int, msg: Msg)
    requires CountersMatchWire(core) && Linked(core) && !msg.Ack?
    ensures CountersMatchWire(Broadcast(env, core, source, msg))
  {
    hide Total, SendAll, Failures, Hits;
    var fds, n := core.viewers - {source}, core.counters.totalAccepted;
    TotalAfterSendAll(WrittenAck, env, core.world, fds, msg, n);
    TotalAfterSendAll(RefusedBroadcast, env, core.world, fds, msg, n);
    NoHits(WrittenAck, env, core.world, fds, msg, n);
    FailuresAreHits(env, core, fds, msg);
  }

  lemma AnswerMatches(env: Env, core: Core, fd: int, status: DeviceStatus)
    requires CountersMatchWire(core) && Linked(core) && fd in core.world.descriptors
    ensures CountersMatchWire(Answer(env, core, fd, status))
  {
    hide Total;
    if status.ackRequested {
      var w, n := core.world.(ticks := core.world.ticks + 1), core.counters.totalAccepted;
      var ack := Ack(status, env.clock(core.world.ticks));
      TotalAfterSendAll(WrittenAck, env, w, {fd}, ack, n);
      TotalAfterSendAll(RefusedBroadcast, env, w, {fd}, ack, n);
      NoHits(RefusedBroadcast, env, w, {fd}, ack, n);
      AckHits(env, core, w, fd, ack);
    }
  }

  lemma AckHits(env: Env, core: Core, w: World, fd: int, ack: Msg)
    requires Linked(core) && fd in core.world.descriptors && ack.Ack? && w == core.world.(ticks := w.ticks)
    ensures |Hits(WrittenAck, env, w, {fd}, ack, core.counters.totalAccepted)|
         == if SendOutcome(env, core.world, fd).Written? then 1 else 0
  {
    var c := w.descriptors[fd];
    assert Targets(w, {fd}) == {c};
    var hits := Hits(WrittenAck, env, w, {fd}, ack, core.counters.totalAccepted);
    assert Outcome(env, w, c) == SendOutcome(env, core.world, fd);
    assert hits == if Outcome(env, w, c).Written? then {c} else {};
  }

  /** A handled line keeps both counters exact. */
  lemma HandleLineMatches(env: Env, core: Core, fd: int, line: string)
    requires CountersMatchWire(core) && Linked(core) && fd in core.world.descriptors
    ensures CountersMatchWire(HandleLine(env, core, fd, line))
  {
    hide StatusOf, Total, Broadcast, Answer, Linked;
    var noted := Note(core, Line(ConnOf(core.world, fd), line));
    SameLinks(core, noted);
    var status := Accepted(line);
    if status.Some? {
      var stored := Store(noted, status.value);
      SameLinks(core, stored);
      AnswerMatches(env, stored, fd, status.value);
      AnswerLinks(env, stored, fd, status.value);
      BroadcastMatches(env, Answer(env, stored, fd, status.value), fd, Relay(ConnOf(core.world, fd), line));
    }
  }

  lemma SameLinks(before: Core, after: Core)
    requires Linked(before) && after.viewers == before.viewers
    requires after.world.descriptors == before.world.descriptors && after.world.conns == before.world.conns
    requires after.counters.totalAccepted == before.counters.totalAccepted
    ensures Linked(after)
  {
  }

  lemma AnswerLinks(env: Env, core: Core, fd: int, status: DeviceStatus)
    requires Linked(core)
    ensures Linked(Answer(env, core, fd, status))
  {
    hide Answer;
    AnswerKeeps(env, core, fd, status);
  }

  lemma {:induction false} HandleLinesMatches(env: Env, core: Core, fd: int, lines: seq<string>)
    requires CountersMatchWire(core) && CoreInv(core) && fd in core.world.descriptors
    ensures CountersMatchWire(HandleLines(env, core, fd, lines))
  {
    hide CountersMatchWire, CoreInv, HandleLine, Linked, Grown;
    if lines != [] {
      HandleLinesMatches(env, core, fd, lines[..|lines| - 1]);
      HandleLinesInv(env, core, fd, lines[..|lines| - 1]);
      var mid := HandleLines(env, core, fd, lines[..|lines| - 1]);
      CoreIsLinked(mid);
      HandleLineMatches(env, mid, fd, lines[|lines| - 1]);
    }
  }

  lemma ReceiveMatches(s: State, fd: int, data: string)
    requires CountersMatchWire(s.core) && fd in s.buffers
    ensures CountersMatchWire(Receive(s, fd, data).core)
  {
    hide Total;
    var before, after := s.core.world.conns, Receive(s, fd, data).core.world.conns;
    TotalDependsOnSends(WrittenAck, before, after, s.core.counters.totalAccepted);
    TotalDependsOnSends(RefusedBroadcast, before, after, s.core.counters.totalAccepted);
  }

  lemma AcceptMatches(s: State, fd: int)
    requires CountersMatchWire(s.core)
    ensures CountersMatchWire(Accept(s, fd).core)
  {
    var n := s.core.counters.totalAccepted;
    TotalIgnoresTheRest(WrittenAck, s.core.world.conns, n, Conn("", []), n);
    TotalIgnoresTheRest(RefusedBroadcast, s.core.world.conns, n, Conn("", []), n);
  }

  lemma {:induction false} AcceptAllMatches(s: State, fds: seq<int>)
    requires CountersMatchWire(s.core)
    ensures CountersMatchWire(AcceptAll(s, fds).core)
  {
    hide CountersMatchWire, Accept;
    if fds != [] {
      AcceptAllMatches(s, fds[..|fds| - 1]);
      AcceptMatches(AcceptAll(s, fds[..|fds| - 1]), fds[|fds| - 1]);
    }
  }

  lemma StepMatches(env: Env, s: State, event: Event)
    requires Healthy(env, s) && CountersMatchWire(s.core) && Enabled(s, event)
    ensures CountersMatchWire(Step(env, s, event).core)
  {
    HealthyParts(env, s);
    hide Healthy, Inv, Timed, Total, HandleLines;
    match event
    case Incoming(fds) => AcceptAllMatches(s, fds);
    case Readable(fd, chunks, stillOpen) =>
      ReceiveMatches(s, fd, Join(chunks));
      ReceiveInv(s, fd, Join(chunks));
      ReceiveFields(s, fd, Join(chunks));
      var received := Receive(s, fd, Join(chunks));
      hide Receive, CoreInv, Framed, SameKeys;
      HandleLinesMatches(env, received.core, fd, Lines(received.buffers[fd]));
  }

  lemma ReportMatches(env: Env, s: State)
    requires Healthy(env, s) && CountersMatchWire(s.core)
    ensures CountersMatchWire(ReportIfDue(env, s).core)
  {
    var nowMs := env.clock(s.core.world.ticks);
    var ticked := Tick(s.core);
    if nowMs - s.core.counters.lastReportMs >= 1000 {
      var metrics := Snapshot(ticked.counters, |s.telemetry|, |ticked.store|, nowMs);
      var noted := Note(ticked, Reported(metrics, ticked.counters.lastReportMs, nowMs));
      SameLinks(s.core, noted);
      hide Healthy, Total, Snapshot, Linked, SendAll, Failures;
      BroadcastMatches(env, noted, -1, Report(metrics));
    }
  }

  /**
   A report is made exactly when 1000 ms have passed since the last one, at the clock
   reading of that moment, and it tells the two counters as they are on the wire.
   Otherwise nothing is recorded and nothing sent.
   */
  lemma ReportTellsTheWire(env: Env, s: State)
    requires CountersMatchWire(s.core)
    ensures var after := ReportIfDue(env, s).core; var t, n := after.world.trace, s.core.counters.totalAccepted;
            var nowMs := env.clock(s.core.world.ticks);
            if nowMs - s.core.counters.lastReportMs >= 1000 then
              && t != [] && Front(t) == s.core.world.trace && Last(t).Reported?
              && Last(t).fromMs == s.core.counters.lastReportMs && Last(t).toMs == nowMs == after.counters.lastReportMs
              && Last(t).metrics.ackSent == Wrap(Total(WrittenAck, s.core.world.conns, n))
              && Last(t).metrics.broadcastErrors == Wrap(Total(RefusedBroadcast, s.core.world.conns, n))
            else t == s.core.world.trace && after.world.conns == s.core.world.conns && after.counters == s.core.counters
  {
    var nowMs := env.clock(s.core.world.ticks);
    var ticked := Tick(s.core);
    var metrics := Snapshot(ticked.counters, |s.telemetry|, |ticked.store|, nowMs);
    PublishKeeps(env, ticked, |s.telemetry|, nowMs);
    Snoc(s.core.world.trace, Reported(metrics, ticked.counters.lastReportMs, nowMs));
    hide Total, Publish, Rate, Wrap, Handled, Expect, Owed;
  }

  lemma {:induction false} StepsMatch(env: Env, s: State, events: seq<Event>, i: nat)
    requires Monotone(env) && Healthy(env, s) && CountersMatchWire(s.core) && PossibleBatch(env, s, events) && i <= |events|
    ensures CountersMatchWire(Steps(env, s, events[..i]).core)
  {
    hide Healthy, CountersMatchWire, Step, Grown;
    if i == 0 {
      assert events[..0] == [];
    } else {
      StepsMatch(env, s, events, i - 1);
      BatchMeetsNoUnknownDescriptor(env, s, events, i - 1);
      var before := Steps(env, s, events[..i - 1]);
      assert Enabled(before, events[i - 1]);
      StepMatches(env, before, events[i - 1]);
      StepsSnoc(env, s, events, i - 1);
    }
  }

  /** In every run both counters are exactly what happened on the wire. */
  lemma {:induction false} RunCountersMatchWire(env: Env, batches: seq<seq<Event>>)
    requires PossibleRun(env, batches)
    ensures CountersMatchWire(Run(env, batches).core)
  {
    hide Healthy, PossibleBatch;
    if batches != [] {
      var front, last := batches[..|batches| - 1], batches[|batches| - 1];
      forall i | 0 <= i < |front| ensures PossibleBatch(env, Run(env, front[..i]), front[i]) {
        assert front[..i] == batches[..i];
      }
      RunCountersMatchWire(env, front);
      RunHealthy(env, front);
      var s := Run(env, front);
      assert batches[..|front|] == front;
      StepsMatch(env, s, last, |last|);
      BatchMeetsNoUnknownDescriptor(env, s, last, |last|);
      assert last[..|last|] == last;
      hide CountersMatchWire;
      ReportMatches(env, Steps(env, s, last));
    }
  }
}
