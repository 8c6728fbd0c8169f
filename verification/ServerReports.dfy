/**
 The periodic METRICS reports: each one states facts about the trace before it,
 windows tile time, and rates are the truncated quotients they claim to be.
 */
module ServerReports {
  import opened Text
  import opened Decimal
  import opened StatusCodec
  import opened StatusStore
  import opened ServerSpec
  import opened ServerInvariant
  import MetricsCodec

  /** End of the last report window, or the start of the server. */
  function LastReportMs(t: seq<Entry>, startMs: nat): nat {
    if t == [] then startMs
    else if Last(t).Reported? then Last(t).toMs
    else LastReportMs(Front(t), startMs)
  }

  /** Statuses accepted when the last report was made. */
  function LastReportReceived(t: seq<Entry>): nat {
    if t == [] then 0
    else if Last(t).Reported? then |Statuses(Front(t))|
    else LastReportReceived(Front(t))
  }

  /** What a report made after `t` must say. */
  ghost predicate Truthful(t: seq<Entry>, e: Entry, startMs: nat)
    requires e.Reported?
  {
    var m := e.metrics;
    && e.fromMs == LastReportMs(t, startMs)
    && e.fromMs + 1000 <= e.toMs
    && startMs <= e.toMs
    && m.uptimeSec == Wrap((e.toMs - startMs) / 1000)
    && Closes(t) <= Opens(t)
    && m.accepted == Wrap(Opens(t))
    && m.disconnected == Wrap(Closes(t))
    && m.active == Wrap(Opens(t) - Closes(t))
    && m.received == Wrap(|Statuses(t)|)
    && m.devices == Wrap(|LastById(Statuses(t))|)
    && m.parseErrors == Wrap(BadLines(t))
    && (exists acks: nat :: acks <= AckRequests(t) && m.ackSent == Wrap(acks))
    && m.msgPerSec == Wrap(Rate(|Statuses(t)| - LastReportReceived(t), e.toMs - e.fromMs))
  }

  ghost predicate ReportsTruthful(t: seq<Entry>, startMs: nat) {
    t != [] ==>
      && ReportsTruthful(Front(t), startMs)
      && (Last(t).Reported? ==> Truthful(Front(t), Last(t), startMs))
  }

  /** The report clock of a running server. */
  ghost predicate Timed(env: Env, core: Core) {
    var c := core.counters;
    && env.clock(0) == c.startMs <= c.lastReportMs <= env.clock(core.world.ticks)
    && c.lastReportMs == LastReportMs(core.world.trace, c.startMs)
    && c.lastReportStatusReceived == LastReportReceived(core.world.trace)
    && ReportsTruthful(core.world.trace, c.startMs)
  }

  /** Steps that are not reports leave the report clock alone. */
  predicate SameWindow(before: Core, after: Core) {
    && after.counters.startMs == before.counters.startMs
    && after.counters.lastReportMs == before.counters.lastReportMs
    && after.counters.lastReportStatusReceived == before.counters.lastReportStatusReceived
    && before.world.ticks <= after.world.ticks
  }

  lemma TimedAfter(env: Env, before: Core, after: Core, e: Entry)
    requires Monotone(env) && Timed(env, before) && SameWindow(before, after)
    requires !e.Reported? && after.world.trace == before.world.trace + [e]
    ensures Timed(env, after)
  {
    Snoc(before.world.trace, e);
    assert env.clock(before.world.ticks) <= env.clock(after.world.ticks);
  }

  lemma HandleLineTimed(env: Env, core: Core, fd: int, line: string)
    requires Monotone(env) && Timed(env, core)
    ensures Timed(env, HandleLine(env, core, fd, line))
  {
    var after := HandleLine(env, core, fd, line);
    HandleLineKeeps(env, core, fd, line);
    HandleLineWindow(env, core, fd, line);
    hide HandleLine;
    TimedAfter(env, core, after, Line(ConnOf(core.world, fd), line));
  }

  lemma HandleLineWindow(env: Env, core: Core, fd: int, line: string)
    ensures SameWindow(core, HandleLine(env, core, fd, line))
  {
    hide StatusOf, SendAll;
    var d := ConnOf(core.world, fd);
    var status := Accepted(line);
    if status.Some? {
      var stored := Store(Note(core, Line(d, line)), status.value);
      var answered := Answer(env, stored, fd, status.value);
      SendAllFields(env, stored.world.(ticks := stored.world.ticks + 1), {fd}, Ack(status.value, env.clock(stored.world.ticks)));
      SendAllFields(env, answered.world, answered.viewers - {fd}, Relay(d, line));
    }
  }

  lemma {:induction false} HandleLinesTimed(env: Env, core: Core, fd: int, lines: seq<string>)
    requires Monotone(env) && Timed(env, core)
    ensures Timed(env, HandleLines(env, core, fd, lines))
  {
    if lines != [] {
      HandleLinesTimed(env, core, fd, lines[..|lines| - 1]);
      HandleLineTimed(env, HandleLines(env, core, fd, lines[..|lines| - 1]), fd, lines[|lines| - 1]);
    }
  }

  /** The truncated quotient, as an inequality between integers. */
  lemma RateIsTruncatedQuotient(messages: nat, elapsedMs: nat)
    requires elapsedMs > 0
    ensures var r := Rate(messages, elapsedMs);
            0 <= r && r * elapsedMs <= 1000 * messages < (r + 1) * elapsedMs
    ensures elapsedMs >= 1000 ==> Rate(messages, elapsedMs) <= messages
  {
    var q := messages as real * 1000.0 / elapsedMs as real;
    var r := q.Floor;
    assert q * elapsedMs as real == messages as real * 1000.0;
    assert r as real <= q < (r + 1) as real;
    RealProduct(r, q, elapsedMs);
    LargerRateIsMore(messages, r, elapsedMs);
  }

  lemma LargerRateIsMore(messages: nat, r: int, elapsedMs: nat)
    ensures elapsedMs >= 1000 && r > messages ==> r * elapsedMs >= (messages + 1) * 1000
  {
    if elapsedMs >= 1000 && r > messages {
      ProductMonotone(messages + 1, r, 1000, elapsedMs);
    }
  }

  lemma RealProduct(r: int, q: real, e: nat)
    requires e > 0 && r as real <= q < (r + 1) as real
    ensures (r * e) as real <= q * e as real < ((r + 1) * e) as real
  {
    assert (r * e) as real == r as real * e as real;
    assert ((r + 1) * e) as real == (r + 1) as real * e as real;
  }

  lemma ProductMonotone(a: nat, b: nat, c: nat, d: nat)
    requires a <= b && c <= d
    ensures a * c <= b * d
  {
    assert a * c <= b * c;
    assert b * c <= b * d;
  }

  /** The snapshot taken of a state says what its trace says. */
  lemma SnapshotIsTruthful(s: State, startMs: nat, nowMs: nat)
    requires CountsAsHandled(s.core) && SameKeys(s)
    requires var c := s.core.counters;
             && startMs == c.startMs <= c.lastReportMs && c.lastReportMs + 1000 <= nowMs
             && c.lastReportMs == LastReportMs(s.core.world.trace, startMs)
             && c.lastReportStatusReceived == LastReportReceived(s.core.world.trace)
    ensures Truthful(s.core.world.trace,
              Reported(Snapshot(s.core.counters, |s.telemetry|, |s.core.store|, nowMs), s.core.counters.lastReportMs, nowMs),
              startMs)
  {
    hide Wrap, Rate, Statuses, BadLines, AckRequests, Opens, Closes, LastById, LastReportMs, LastReportReceived;
    var t := s.core.world.trace;
    var metrics := Snapshot(s.core.counters, |s.telemetry|, |s.core.store|, nowMs);
    assert |s.telemetry| == Opens(t) - Closes(t);
    assert s.core.counters.ackSent <= AckRequests(t) && metrics.ackSent == Wrap(s.core.counters.ackSent);
  }

  lemma TimedAfterReport(env: Env, before: Core, after: Core, e: Entry)
    requires Timed(env, before)
    requires e.Reported? && Truthful(before.world.trace, e, before.counters.startMs)
    requires after.world.trace == before.world.trace + [e]
    requires after.counters.startMs == before.counters.startMs && after.counters.lastReportMs == e.toMs
    requires after.counters.lastReportStatusReceived == |Statuses(before.world.trace)|
    requires e.toMs <= env.clock(after.world.ticks)
    ensures Timed(env, after)
  {
    hide Statuses, Wrap, Rate, LastById;
    Snoc(before.world.trace, e);
  }

  /** A report, when due, is truthful and starts the next window where it ends. */
  lemma ReportTimed(env: Env, s: State)
    requires Monotone(env) && Inv(s) && Timed(env, s.core)
    ensures Timed(env, ReportIfDue(env, s).core)
  {
    var nowMs := env.clock(s.core.world.ticks);
    assert nowMs <= env.clock(s.core.world.ticks + 1);
    var ticked := Tick(s.core);
    assert CountsAsHandled(s.core) && SameKeys(s) && Timed(env, s.core);
    hide *;
    if nowMs - s.core.counters.lastReportMs >= 1000 {
      DueReportTimed(env, s, nowMs);
    } else {
      NoReportTimed(env, s, nowMs);
    }
  }

  lemma NoReportTimed(env: Env, s: State, nowMs: nat)
    requires nowMs == env.clock(s.core.world.ticks) <= env.clock(s.core.world.ticks + 1)
    requires Timed(env, s.core) && nowMs - s.core.counters.lastReportMs < 1000
    ensures Timed(env, ReportIfDue(env, s).core)
  {
  }

  lemma DueReportTimed(env: Env, s: State, nowMs: nat)
    requires nowMs == env.clock(s.core.world.ticks) <= env.clock(s.core.world.ticks + 1)
    requires CountsAsHandled(s.core) && SameKeys(s) && Timed(env, s.core)
    requires nowMs - s.core.counters.lastReportMs >= 1000
    ensures Timed(env, ReportIfDue(env, s).core)
  {
    hide Publish, Snapshot, LastById, Statuses, BadLines, AckRequests, Opens, Closes, LastReportMs, LastReportReceived, Truthful;
    var ticked := Tick(s.core);
    var after := Publish(env, ticked, |s.telemetry|, nowMs);
    var metrics := Snapshot(ticked.counters, |s.telemetry|, |ticked.store|, nowMs);
    var e := Reported(metrics, ticked.counters.lastReportMs, nowMs);
    SnapshotIsTruthful(s, s.core.counters.startMs, nowMs);
    PublishKeeps(env, ticked, |s.telemetry|, nowMs);
    assert s.core.counters.statusReceived == |Statuses(s.core.world.trace)|;
    hide CountsAsHandled, SameKeys;
    TimedAfterReport(env, ticked, after, e);
  }
}
