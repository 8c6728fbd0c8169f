/**
 The viewer end to end: what a viewer that is sent every message whole shows after
 a flush, and exactly when that is the server's store.
 */
module Replica {
  import opened Text
  import opened StatusCodec
  import opened StatusStore
  import opened ServerSpec
  import opened ServerInvariant
  import opened ServerRuns
  import opened ServerTheorems
  import opened ViewerNetwork
  import opened ViewerConsole
  import MetricsCodec

  /** The statuses among the signals posted to the window. */
  function StatusesIn(signals: seq<Signal>): seq<DeviceStatus> {
    if signals == [] then []
    else
      StatusesIn(Front(signals)) + (if Last(signals).StatusReceived? then [Last(signals).status] else [])
  }

  /** The statuses carried by relayed lines. */
  function RelayedIn(msgs: seq<Msg>): seq<DeviceStatus> {
    if msgs == [] then []
    else
      RelayedIn(Front(msgs)) +
      (if Last(msgs).Relay? && Accepted(Last(msgs).line).Some? then [Accepted(Last(msgs).line).value] else [])
  }

  /** What a viewer can be sent: accepted lines of others, and reports. */
  predicate ForViewers(msg: Msg) {
    match msg
    case Ack(_, _) => false
    case Relay(_, line) => Accepted(line).Some? && IsLine(line)
    case Report(_) => true
  }

  function Texts(msgs: seq<Msg>): seq<string> {
    if msgs == [] then [] else Texts(Front(msgs)) + [Bytes(Last(msgs))]
  }

  // ---- what the server owes a viewer ----

  /** The connection became a viewer with the `k`-th entry and has not closed. */
  predicate WatchesFrom(t: seq<Entry>, c: nat, k: nat) {
    && k <= |t|
    && (forall i :: 0 <= i < k ==> !Watching(t[..i], c))
    && Watching(t[..k], c)
    && Closed(c) !in t
  }

  /** The connection itself sends nothing that is accepted as a STATUS. */
  predicate SendsNoStatus(t: seq<Entry>, c: nat) {
    forall i :: 0 <= i < |t| && t[i].Line? && t[i].conn == c ==> Accepted(t[i].line).None?
  }

  lemma {:induction false} NothingOwedYet(t: seq<Entry>, c: nat)
    requires SendsNoStatus(t, c) && forall i :: 0 <= i < |t| ==> !Watching(t[..i], c)
    ensures Expect(t, c) == []
  {
    hide StatusOf, Watching;
    if t != [] {
      var front := Front(t);
      forall i | 0 <= i < |front| ensures !Watching(front[..i], c) {
        assert front[..i] == t[..i];
      }
      NothingOwedYet(front, c);
    }
  }

  /** A watching connection is owed every line accepted since exactly once, in the global order. */
  lemma {:induction false} OwedEveryStatus(t: seq<Entry>, c: nat, k: nat)
    requires WatchesFrom(t, c, k) && SendsNoStatus(t, c)
    ensures Statuses(t[..k]) + RelayedIn(Expect(t, c)) == Statuses(t)
    ensures Watching(t, c)
    ensures forall i :: 0 <= i < |Expect(t, c)| ==> !Expect(t, c)[i].Ack?
  {
    hide StatusOf, Watching;
    if |t| == k {
      assert t[..k] == t;
      NothingOwedYet(t, c);
      assert Statuses(t) + [] == Statuses(t);
    } else {
      var front, e := Front(t), Last(t);
      assert t == front + [e] && e in t;
      WatchedBefore(t, c, k);
      hide Expect, Statuses, RelayedIn, WatchesFrom;
      OwedEveryStatus(front, c, k);
      OneMoreOwed(front, e, c, Statuses(t[..k]));
    }
  }

  lemma WatchedBefore(t: seq<Entry>, c: nat, k: nat)
    requires WatchesFrom(t, c, k) && k < |t|
    ensures WatchesFrom(Front(t), c, k) && Front(t)[..k] == t[..k]
  {
    hide Watching;
    forall i | 0 <= i <= k ensures Front(t)[..i] == t[..i] {
    }
  }

  /** The status an entry adds, if it is an accepted line. */
  function StatusAdded(e: Entry): seq<DeviceStatus> {
    if e.Line? && Accepted(e.line).Some? then [Accepted(e.line).value] else []
  }

  lemma OwedIsAdded(t: seq<Entry>, e: Entry, c: nat)
    requires Watching(t, c)
    requires e.Line? && e.conn == c ==> Accepted(e.line).None?
    ensures RelayedIn(Owed(t, e, c)) == StatusAdded(e) && |Owed(t, e, c)| <= 1
    ensures forall i :: 0 <= i < |Owed(t, e, c)| ==> !Owed(t, e, c)[i].Ack?
  {
    hide StatusOf, Watching;
    var owed := Owed(t, e, c);
    if owed != [] {
      assert Front(owed) == [];
    }
  }

  lemma RelayedSnoc(before: seq<Msg>, owed: seq<Msg>)
    requires |owed| <= 1
    ensures RelayedIn(before + owed) == RelayedIn(before) + RelayedIn(owed)
  {
    hide StatusOf;
    if owed == [] {
      assert before + owed == before;
    } else {
      assert Front(before + owed) == before && Front(owed) == [];
    }
  }

  lemma OneMoreOwed(t: seq<Entry>, e: Entry, c: nat, missed: seq<DeviceStatus>)
    requires Watching(t, c) && e != Closed(c)
    requires e.Line? && e.conn == c ==> Accepted(e.line).None?
    requires missed + RelayedIn(Expect(t, c)) == Statuses(t)
    requires forall i :: 0 <= i < |Expect(t, c)| ==> !Expect(t, c)[i].Ack?
    ensures missed + RelayedIn(Expect(t + [e], c)) == Statuses(t + [e]) && Watching(t + [e], c)
    ensures forall i :: 0 <= i < |Expect(t + [e], c)| ==> !Expect(t + [e], c)[i].Ack?
  {
    hide Expect, Owed, Statuses, RelayedIn, Watching, StatusOf;
    Snoc(t, e);
    CountsSnoc(t, e);
    WatchingSnoc(t, e, c);
    OwedIsAdded(t, e, c);
    RelayedSnoc(Expect(t, c), Owed(t, e, c));
    assert missed + (RelayedIn(Expect(t, c)) + StatusAdded(e)) == (missed + RelayedIn(Expect(t, c))) + StatusAdded(e);
  }

  // ---- the lines of the trace ----

  lemma {:induction false} TracedIsHandled(t: seq<Entry>, i: nat)
    requires i < |t| && t[i].Line?
    ensures t[i].line in Handled(t, t[i].conn)
  {
    if i < |t| - 1 {
      TracedIsHandled(Front(t), i);
    }
  }

  /** Every line ever handled is one complete line. */
  lemma HandledIsComplete(env: Env, s: State, c: nat, line: string)
    requires Healthy(env, s) && line in Handled(s.core.world.trace, c)
    ensures IsLine(line)
  {
    hide Lines, Rest, Handled, IsLine, Expect, Offered, Watching;
    var w := s.core.world;
    assert c in w.conns;
    LinesAreTheBuffer(w.conns[c].received);
    if IsOpen(w, c) {
      var fd :| fd in w.descriptors && w.descriptors[fd] == c;
      assert FramedAt(w, c, s.buffers[fd]);
    }
    assert line in Lines(w.conns[c].received);
  }

  lemma {:induction false} OwedAreLines(t: seq<Entry>, c: nat)
    requires forall i :: 0 <= i < |t| && t[i].Line? ==> IsLine(t[i].line)
    requires forall i :: 0 <= i < |Expect(t, c)| ==> !Expect(t, c)[i].Ack?
    ensures forall i :: 0 <= i < |Expect(t, c)| ==> ForViewers(Expect(t, c)[i])
  {
    hide StatusOf, IsLine, Watching;
    if t != [] {
      var before := Expect(Front(t), c);
      forall i | 0 <= i < |before| ensures !before[i].Ack? {
        assert Expect(t, c)[i] == before[i];
      }
      OwedAreLines(Front(t), c);
    }
  }

  // ---- from messages to signals ----

  lemma MetricsTextIsMetrics(m: ServerMetrics)
    ensures METRICS_TAG <= MetricsCodec.MetricsText(m)
  {
    hide Fields.Render, Decimal.ToString;
    var line := MetricsCodec.MetricsText(m);
    var pairs := MetricsCodec.PairsOf(m);
    assert Fields.Render(pairs) == " " + pairs[0].0 + "=" + pairs[0].1 + Fields.Render(pairs[1..]) by { RenderStarts(pairs); }
    assert line[..8] == METRICS_TAG;
  }

  lemma RenderStarts(pairs: seq<(string, string)>)
    requires pairs != []
    ensures Fields.Render(pairs) == " " + pairs[0].0 + "=" + pairs[0].1 + Fields.Render(pairs[1..])
  {
  }

  /** The viewer accepts exactly the relayed lines the server accepted, as the same statuses. */
  lemma SameStatus(msg: Msg)
    requires ForViewers(msg)
    ensures IsLine(Bytes(msg))
    ensures SignalsOf(Bytes(msg))
         == if msg.Relay? then [StatusReceived(Accepted(msg.line).value)] else [MetricsReceived(Bytes(msg))]
  {
    hide IsLine, StatusOf, MetricsCodec.MetricsText;
    match msg
    case Relay(_, line) => StatusLineIsNotMetrics(line);
    case Report(m) =>
      MetricsCodec.MetricsTextIsLine(m);
      MetricsTextIsMetrics(m);
  }

  lemma {:induction false} SignalsOfTexts(msgs: seq<Msg>)
    requires forall i :: 0 <= i < |msgs| ==> ForViewers(msgs[i])
    ensures StatusesIn(SignalsOfAll(Texts(msgs))) == RelayedIn(msgs)
    ensures forall line :: line in Texts(msgs) ==> IsLine(line)
  {
    hide IsLine, StatusOf, SignalsOf, Bytes;
    if msgs != [] {
      SignalsOfTexts(Front(msgs));
      SameStatus(Last(msgs));
      SignalsSnoc(Texts(Front(msgs)), Bytes(Last(msgs)));
      StatusesSnoc(SignalsOfAll(Texts(Front(msgs))), SignalsOf(Bytes(Last(msgs)))[0]);
    }
  }

  lemma StatusesSnoc(signals: seq<Signal>, signal: Signal)
    ensures StatusesIn(signals + [signal]) == StatusesIn(signals) + (if signal.StatusReceived? then [signal.status] else [])
  {
    assert Front(signals + [signal]) == signals;
  }

  // ---- from sends to bytes ----

  predicate SentWhole(sends: seq<Attempt>) {
    forall i :: 0 <= i < |sends| ==> Delivered(sends[i]) == Bytes(sends[i].msg)
  }

  lemma {:induction false} WholeSendsJoin(sends: seq<Attempt>, msgs: seq<Msg>)
    requires SentWhole(sends) && Offered(sends) == msgs && forall i :: 0 <= i < |msgs| ==> !msgs[i].Ack?
    ensures DeliveredAll(sends) == Join(Texts(msgs))
  {
    hide Delivered, Bytes;
    OfferedLength(sends);
    if sends != [] {
      var a := Last(sends);
      assert msgs == Offered(Front(sends)) + [Timeless(a.msg)];
      assert Last(msgs) == Timeless(a.msg) && Front(msgs) == Offered(Front(sends));
      WholeSendsJoin(Front(sends), Front(msgs));
      JoinAppend(Texts(Front(msgs)), [Bytes(a.msg)]);
      JoinOne(Bytes(a.msg));
    }
  }

  // ---- the theorem ----

  /** The statuses a viewer reads from the bytes sent to a connection. */
  function ReadBy(w: World, c: nat): seq<DeviceStatus>
    requires c in w.conns
  {
    StatusesIn(SignalsOfAll(Lines(DeliveredAll(w.conns[c].sends))))
  }

  /** The bytes sent to such a viewer are read back as the statuses the server accepted since, one for one. */
  lemma ViewerReadsEveryStatus(env: Env, batches: seq<seq<Event>>, c: nat, k: nat)
    requires PossibleRun(env, batches)
    requires var w := Run(env, batches).core.world;
             c in w.conns && WatchesFrom(w.trace, c, k) && SendsNoStatus(w.trace, c) && SentWhole(w.conns[c].sends)
    ensures var w := Run(env, batches).core.world;
            Statuses(w.trace[..k]) + ReadBy(w, c) == Statuses(w.trace)
  {
    RunHealthy(env, batches);
    RunRefinesLineSpec(env, batches);
    var s := Run(env, batches);
    var w := s.core.world;
    var msgs := Expect(w.trace, c);
    OwedEveryStatus(w.trace, c, k);
    hide PossibleRun, Run, Healthy, WatchesFrom, SendsNoStatus, SentWhole, Lines, Rest, Expect, Offered, Statuses, ForViewers,
      IsLine, Handled, DeliveredAll;
    forall i | 0 <= i < |w.trace| && w.trace[i].Line? ensures IsLine(w.trace[i].line) {
      TracedIsHandled(w.trace, i);
      HandledIsComplete(env, s, w.trace[i].conn, w.trace[i].line);
    }
    OwedAreLines(w.trace, c);
    SignalsOfTexts(msgs);
    WholeSendsJoin(w.conns[c].sends, msgs);
    NothingLeft(Texts(msgs));
  }

  lemma NothingLeft(lines: seq<string>)
    requires forall line :: line in lines ==> IsLine(line)
    ensures Lines(Join(lines)) == lines
  {
    LinesUnique(lines, "");
    assert Join(lines) + "" == Join(lines);
  }

  /** A replica that missed the first reports agrees where it knows a device, and is complete exactly when each device missed has reported again. */
  lemma LateReplica(missed: seq<DeviceStatus>, read: seq<DeviceStatus>)
    ensures forall id :: id in LastById(read) ==> id in LastById(missed + read) && LastById(missed + read)[id] == LastById(read)[id]
    ensures LastById(read) == LastById(missed + read) <==> LastById(missed).Keys <= LastById(read).Keys
  {
    LastByIdAppend(missed, read);
    hide LastById;
    var all := LastById(missed) + LastById(read);
    if LastById(read) == all {
      assert all.Keys == LastById(missed).Keys + LastById(read).Keys;
    }
  }

  /** The viewer has read, in any pieces, all it was sent, and its window got the statuses before its last flush. */
  ghost predicate CaughtUp(w: World, c: nat, socket: seq<SocketEvent>, window: seq<UiEvent>) {
    && c in w.conns
    && Sessions(socket) == [DeliveredAll(w.conns[c].sends)]
    && window != [] && Last(window).FlushTimer?
    && Arrivals(window) == StatusesIn(SignalsOfSessions(Sessions(socket)))
  }

  /**
   The replica: a viewer that has caught up shows the server's status of every
   device it knows, and the whole store exactly when every device that reported
   before the viewer registered has reported again since.
   */
  lemma ReplicaEqualsStore(env: Env, batches: seq<seq<Event>>, c: nat, k: nat,
                           socket: seq<SocketEvent>, window: seq<UiEvent>)
    requires PossibleRun(env, batches)
    requires var w := Run(env, batches).core.world;
             && CaughtUp(w, c, socket, window)
             && WatchesFrom(w.trace, c, k) && SendsNoStatus(w.trace, c) && SentWhole(w.conns[c].sends)
    ensures var s := Run(env, batches); var table := Flushed(map[], [], window);
            && (forall id :: id in table ==> id in s.core.store && s.core.store[id] == table[id])
            && (table == s.core.store <==> LastById(Statuses(s.core.world.trace[..k])).Keys <= table.Keys)
  {
    RunRefinesLineSpec(env, batches);
    ViewerReadsEveryStatus(env, batches, c, k);
    var w := Run(env, batches).core.world;
    OneSession(DeliveredAll(w.conns[c].sends));
    FlushAtEnd(window);
    assert Flushed(map[], [], window) == LastById(ReadBy(w, c));
    LateReplica(Statuses(w.trace[..k]), ReadBy(w, c));
  }

  /** A viewer that registered before the first STATUS shows the server's store. */
  lemma EarlyViewerShowsTheStore(env: Env, batches: seq<seq<Event>>, c: nat, k: nat,
                                 socket: seq<SocketEvent>, window: seq<UiEvent>)
    requires PossibleRun(env, batches)
    requires var w := Run(env, batches).core.world;
             && CaughtUp(w, c, socket, window)
             && WatchesFrom(w.trace, c, k) && SendsNoStatus(w.trace, c) && SentWhole(w.conns[c].sends)
             && Statuses(w.trace[..k]) == []
    ensures Flushed(map[], [], window) == Run(env, batches).core.store
  {
    ReplicaEqualsStore(env, batches, c, k, socket, window);
    assert LastById([]) == map[];
  }

  lemma OneSession(stream: string)
    ensures SignalsOfSessions([stream]) == SignalsOfAll(Lines(stream))
  {
    hide Lines, SignalsOfAll;
    assert [stream][..0] == [] && SignalsOfSessions([]) == [];
    assert [] + SignalsOfAll(Lines(stream)) == SignalsOfAll(Lines(stream));
  }

  lemma FlushAtEnd(window: seq<UiEvent>)
    requires window != [] && Last(window).FlushTimer?
    ensures Flushed(map[], [], window) == LastById(Arrivals(window))
  {
    hide LastById;
    var front := window[..|window| - 1];
    var none: seq<DeviceStatus> := [];
    assert none + Arrivals(front) == Arrivals(front);
    assert Arrivals(window) == Arrivals(front) + none;
    assert Arrivals(front) + none == Arrivals(front);
  }
}
