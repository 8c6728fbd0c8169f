/**
 What every step of the server keeps. The centre is a line-at-a-time reading of
 the trace: which connections are watching, and exactly which messages each
 connection must have been offered. No buffer, chunk or descriptor occurs in it.
 */
module ServerInvariant {
  import opened Text
  import opened Decimal
  import opened StatusCodec
  import opened StatusStore
  import opened ServerSpec

  // ---- reading the trace ----

  function Front<T>(t: seq<T>): seq<T>
    requires t != []
  {
    t[..|t| - 1]
  }

  function Last<T>(t: seq<T>): T
    requires t != []
  {
    t[|t| - 1]
  }

  /** The connection has said it is a viewer, and has not closed since. */
  predicate Watching(t: seq<Entry>, c: nat) {
    t != [] &&
    match Last(t)
    case Line(d, line) => (d == c && IsViewerHello(line)) || Watching(Front(t), c)
    case Closed(d) => d != c && Watching(Front(t), c)
    case _ => Watching(Front(t), c)
  }

  /** What one entry of the trace owes to a connection. */
  function Owed(t: seq<Entry>, entry: Entry, c: nat): seq<Msg> {
    match entry
    case Line(d, line) =>
      var status := Accepted(line);
      if status.None? then []
      else if d == c then (if status.value.ackRequested then [Ack(status.value, 0)] else [])
      else if Watching(t, c) then [Relay(d, line)]
      else []
    case Reported(metrics, _, _) => if Watching(t, c) then [Report(metrics)] else []
    case _ => []
  }

  /** The messages a connection must have been offered, in order (acknowledgements without their time). */
  function Expect(t: seq<Entry>, c: nat): seq<Msg> {
    if t == [] then [] else Expect(Front(t), c) + Owed(Front(t), Last(t), c)
  }

  function Timeless(msg: Msg): Msg {
    if msg.Ack? then msg.(serverMs := 0) else msg
  }

  function Offered(sends: seq<Attempt>): seq<Msg> {
    if sends == [] then [] else Offered(Front(sends)) + [Timeless(Last(sends).msg)]
  }

  /** The complete lines handled for a connection, in order. */
  function Handled(t: seq<Entry>, c: nat): seq<string> {
    if t == [] then []
    else
      Handled(Front(t), c) + (if Last(t).Line? && Last(t).conn == c then [Last(t).line] else [])
  }

  /** The statuses accepted, from all connections, in order. */
  function Statuses(t: seq<Entry>): seq<DeviceStatus> {
    if t == [] then []
    else
      Statuses(Front(t)) +
      (if Last(t).Line? && Accepted(Last(t).line).Some? then [Accepted(Last(t).line).value] else [])
  }

  function BadLines(t: seq<Entry>): nat {
    if t == [] then 0
    else
      BadLines(Front(t)) + (if Last(t).Line? && !IsHello(Last(t).line) && StatusOf(Last(t).line).None? then 1 else 0)
  }

  function AckRequests(t: seq<Entry>): nat {
    if t == [] then 0
    else
      AckRequests(Front(t)) +
      (if Last(t).Line? && Accepted(Last(t).line).Some? && Accepted(Last(t).line).value.ackRequested then 1 else 0)
  }

  function Opens(t: seq<Entry>): nat {
    if t == [] then 0 else Opens(Front(t)) + (if Last(t).Opened? then 1 else 0)
  }

  function Closes(t: seq<Entry>): nat {
    if t == [] then 0 else Closes(Front(t)) + (if Last(t).Closed? then 1 else 0)
  }

  // ---- the invariant ----

  /** Descriptors name distinct known connections; connection numbers are not reused. */
  ghost predicate Linked(core: Core) {
    var w := core.world;
    && (forall fd :: fd in w.descriptors ==> fd >= 0 && w.descriptors[fd] in w.conns)
    && (forall fd, gd :: fd in w.descriptors && gd in w.descriptors && w.descriptors[fd] == w.descriptors[gd] ==> fd == gd)
    && (forall c :: c in w.conns ==> c < core.counters.totalAccepted)
    && core.viewers <= w.descriptors.Keys
  }

  predicate IsOpen(w: World, c: nat) {
    exists fd :: fd in w.descriptors && w.descriptors[fd] == c
  }

  ghost predicate ViewersWatch(core: Core) {
    var w := core.world;
    && (forall fd :: fd in w.descriptors ==> (fd in core.viewers <==> Watching(w.trace, w.descriptors[fd])))
    && (forall c: nat :: Watching(w.trace, c) ==> IsOpen(w, c))
  }

  ghost predicate SendsAsOwed(w: World) {
    forall c :: c in w.conns ==> Offered(w.conns[c].sends) == Expect(w.trace, c)
  }

  /** Nothing in the trace concerns connections that do not exist yet. */
  ghost predicate NothingBeforeAccept(core: Core) {
    forall c: nat :: c !in core.world.conns ==>
      Expect(core.world.trace, c) == [] && Handled(core.world.trace, c) == []
  }

  ghost predicate CountsAsHandled(core: Core) {
    var t := core.world.trace;
    && core.store == LastById(Statuses(t))
    && core.counters.statusReceived == |Statuses(t)|
    && core.counters.parseErrors == BadLines(t)
    && core.counters.totalAccepted == Opens(t)
    && core.counters.totalDisconnected == Closes(t)
    && core.counters.ackSent <= AckRequests(t)
  }

  ghost predicate CoreInv(core: Core) {
    Linked(core) && ViewersWatch(core) && SendsAsOwed(core.world) && NothingBeforeAccept(core) && CountsAsHandled(core)
  }

  /** The three collections of the event loop and the operating system agree. */
  ghost predicate SameKeys(s: State) {
    && s.buffers.Keys == s.telemetry == s.core.world.descriptors.Keys
    && s.core.counters.totalAccepted == s.core.counters.totalDisconnected + |s.telemetry|
  }

  /** Lines handled, then the lines still buffered, are the lines received; the rest is what is left of both. */
  ghost predicate Framed(s: State) {
    && s.buffers.Keys == s.core.world.descriptors.Keys
    && (forall fd :: fd in s.buffers && s.core.world.descriptors[fd] in s.core.world.conns ==>
          FramedAt(s.core.world, s.core.world.descriptors[fd], s.buffers[fd]))
    && (forall c :: c in s.core.world.conns && !IsOpen(s.core.world, c) ==>
          Handled(s.core.world.trace, c) == Lines(s.core.world.conns[c].received))
  }

  ghost predicate FramedAt(w: World, c: nat, buffer: string)
    requires c in w.conns
  {
    && Handled(w.trace, c) + Lines(buffer) == Lines(w.conns[c].received)
    && Rest(buffer) == Rest(w.conns[c].received)
  }

  /** Between events no complete line is left waiting. */
  ghost predicate Settled(s: State) {
    forall fd :: fd in s.buffers ==> Free(s.buffers[fd], '\n')
  }

  ghost predicate Inv(s: State) {
    CoreInv(s.core) && SameKeys(s) && Framed(s) && Settled(s)
  }

  // ---- appending to the trace ----

  lemma Snoc(t: seq<Entry>, e: Entry)
    ensures Front(t + [e]) == t && Last(t + [e]) == e
    ensures forall c: nat :: Expect(t + [e], c) == Expect(t, c) + Owed(t, e, c)
  {
    assert (t + [e])[..|t|] == t;
  }

  lemma OfferedSnoc(sends: seq<Attempt>, a: Attempt)
    ensures Offered(sends + [a]) == Offered(sends) + [Timeless(a.msg)]
  {
    assert Front(sends + [a]) == sends;
  }

  /** Counting entries: only a line can move the store and the line counters. */
  lemma CountsSnoc(t: seq<Entry>, e: Entry)
    ensures Statuses(t + [e]) == Statuses(t) + (if e.Line? && Accepted(e.line).Some? then [Accepted(e.line).value] else [])
    ensures BadLines(t + [e]) == BadLines(t) + (if e.Line? && !IsHello(e.line) && StatusOf(e.line).None? then 1 else 0)
    ensures AckRequests(t + [e]) == AckRequests(t)
      + (if e.Line? && Accepted(e.line).Some? && Accepted(e.line).value.ackRequested then 1 else 0)
    ensures Opens(t + [e]) == Opens(t) + (if e.Opened? then 1 else 0)
    ensures Closes(t + [e]) == Closes(t) + (if e.Closed? then 1 else 0)
  {
    Snoc(t, e);
  }

  lemma HandledSnoc(t: seq<Entry>, e: Entry, c: nat)
    ensures Handled(t + [e], c) == Handled(t, c) + (if e.Line? && e.conn == c then [e.line] else [])
  {
    Snoc(t, e);
  }

  lemma WatchingSnoc(t: seq<Entry>, e: Entry, c: nat)
    ensures Watching(t + [e], c)
       <==> (if e.Line? && e.conn == c && IsViewerHello(e.line) then true
             else if e == Closed(c) then false
             else Watching(t, c))
  {
    Snoc(t, e);
  }

  /** The connections a broadcast reaches are those watching, other than the source. */
  lemma TargetsWatch(core: Core, source: int, c: nat)
    requires Linked(core) && ViewersWatch(core)
    ensures c in Targets(core.world, core.viewers - {source})
       <==> Watching(core.world.trace, c) && !(source in core.world.descriptors && core.world.descriptors[source] == c)
  {
    var w := core.world;
    if Watching(w.trace, c) {
      assert IsOpen(w, c);
      var fd :| fd in w.descriptors && w.descriptors[fd] == c;
    }
  }

  // ---- one line ----

  /** Connections only grow: nothing received is changed and no send is forgotten. */
  predicate Grown(before: map<nat, Conn>, after: map<nat, Conn>) {
    && before.Keys <= after.Keys
    && (forall c :: c in before ==>
          before[c].received <= after[c].received && before[c].sends <= after[c].sends)
  }

  /** What handling one entry leaves alone. */
  predicate Keeps(before: Core, after: Core, entry: Entry) {
    && after.world.descriptors == before.world.descriptors
    && after.world.trace == before.world.trace + [entry]
    && after.world.conns.Keys == before.world.conns.Keys
    && (forall c :: c in before.world.conns ==> after.world.conns[c].received == before.world.conns[c].received)
    && Grown(before.world.conns, after.world.conns)
    && after.counters.totalAccepted == before.counters.totalAccepted
    && after.counters.totalDisconnected == before.counters.totalDisconnected
  }

  lemma SendAllKeeps(env: Env, w: World, fds: set<int>, msg: Msg)
    ensures var after := SendAll(env, w, fds, msg);
            && after.conns.Keys == w.conns.Keys && Grown(w.conns, after.conns)
            && (forall c :: c in w.conns ==> after.conns[c].received == w.conns[c].received)
  {
  }

  lemma HandleLineKeeps(env: Env, core: Core, fd: int, line: string)
    ensures Keeps(core, HandleLine(env, core, fd, line), Line(ConnOf(core.world, fd), line))
  {
    hide SendAll, StatusOf;
    var d := ConnOf(core.world, fd);
    var status := Accepted(line);
    if status.Some? {
      var stored := Store(Note(core, Line(d, line)), status.value);
      var answered := Answer(env, stored, fd, status.value);
      var w := stored.world;
      AnswerKeeps(env, stored, fd, status.value);
      SendAllKeeps(env, answered.world, answered.viewers - {fd}, Relay(d, line));
      SendAllFields(env, answered.world, answered.viewers - {fd}, Relay(d, line));
    }
  }

  lemma SendAllFields(env: Env, w: World, fds: set<int>, msg: Msg)
    ensures SendAll(env, w, fds, msg) == w.(conns := SendAll(env, w, fds, msg).conns)
  {
  }

  lemma AnswerKeeps(env: Env, core: Core, fd: int, status: DeviceStatus)
    ensures var after := Answer(env, core, fd, status);
            && after.viewers == core.viewers && after.store == core.store
            && after.counters == core.counters.(ackSent := after.counters.ackSent)
            && after.counters.ackSent <= core.counters.ackSent + (if status.ackRequested then 1 else 0)
            && after.world.descriptors == core.world.descriptors && after.world.trace == core.world.trace
            && after.world.conns.Keys == core.world.conns.Keys && Grown(core.world.conns, after.world.conns)
            && (forall c :: c in core.world.conns ==> after.world.conns[c].received == core.world.conns[c].received)
  {
    var w := core.world.(ticks := core.world.ticks + 1);
    SendAllKeeps(env, w, {fd}, Ack(status, env.clock(core.world.ticks)));
  }

  lemma HandleLineViewers(env: Env, core: Core, fd: int, line: string)
    requires Linked(core) && ViewersWatch(core) && fd in core.world.descriptors
    ensures Linked(HandleLine(env, core, fd, line)) && ViewersWatch(HandleLine(env, core, fd, line))
  {
    hide Watching, StatusOf;
    var after := HandleLine(env, core, fd, line);
    var e := Line(ConnOf(core.world, fd), line);
    HandleLineKeeps(env, core, fd, line);
    assert after.viewers == if IsViewerHello(line) then core.viewers + {fd} else core.viewers;
    forall c: nat ensures Watching(after.world.trace, c) <==> (c == e.conn && IsViewerHello(line)) || Watching(core.world.trace, c) {
      WatchingSnoc(core.world.trace, e, c);
    }
  }

  /** The sends a handled line makes are exactly the ones its entry owes. */
  lemma HandleLineSends(env: Env, core: Core, fd: int, line: string, c: nat)
    requires Linked(core) && ViewersWatch(core) && fd in core.world.descriptors && c in core.world.conns
    ensures var after := HandleLine(env, core, fd, line);
            c in after.world.conns &&
            Offered(after.world.conns[c].sends)
              == Offered(core.world.conns[c].sends) + Owed(core.world.trace, Line(ConnOf(core.world, fd), line), c)
  {
    hide StatusOf, Watching, Offered;
    var d := ConnOf(core.world, fd);
    var sends := core.world.conns[c].sends;
    var status := Accepted(line);
    if status.Some? {
      var stored := Store(Note(core, Line(d, line)), status.value);
      var answered := Answer(env, stored, fd, status.value);
      AnswerSends(env, stored, fd, status.value, c);
      var after := Broadcast(env, answered, fd, Relay(d, line));
      assert after == HandleLine(env, core, fd, line);
      TargetsWatch(core, fd, c);
      assert Targets(answered.world, answered.viewers - {fd}) == Targets(core.world, core.viewers - {fd});
      var mid := answered.world.conns[c].sends;
      if c in Targets(core.world, core.viewers - {fd}) {
        OfferedSnoc(mid, Attempt(Relay(d, line), Outcome(env, answered.world, c)));
      }
    }
    assert Offered(sends) + [] == Offered(sends);
  }

  lemma AnswerSends(env: Env, core: Core, fd: int, status: DeviceStatus, c: nat)
    requires fd in core.world.descriptors && c in core.world.conns
    ensures var after := Answer(env, core, fd, status);
            && c in after.world.conns
            && after.world.descriptors == core.world.descriptors && after.viewers == core.viewers
            && Offered(after.world.conns[c].sends)
                 == Offered(core.world.conns[c].sends)
                    + (if core.world.descriptors[fd] == c && status.ackRequested then [Ack(status, 0)] else [])
  {
    var w := core.world;
    if status.ackRequested {
      assert Targets(w.(ticks := w.ticks + 1), {fd}) == {w.descriptors[fd]};
      OfferedSnoc(w.conns[c].sends, Attempt(Ack(status, env.clock(w.ticks)), Outcome(env, w, c)));
    }
  }

  lemma HandleLineCounts(env: Env, core: Core, fd: int, line: string)
    requires CountsAsHandled(core)
    ensures CountsAsHandled(HandleLine(env, core, fd, line))
  {
    hide StatusOf, LastById, Statuses, BadLines, AckRequests, Opens, Closes, SendAll;
    var e := Line(ConnOf(core.world, fd), line);
    CountsSnoc(core.world.trace, e);
    HandleLineKeeps(env, core, fd, line);
    var status := Accepted(line);
    if status.Some? {
      LastByIdSnoc(Statuses(core.world.trace), status.value);
      var stored := Store(Note(core, e), status.value);
      AnswerKeeps(env, stored, fd, status.value);
    } else {
      assert Statuses(core.world.trace) + [] == Statuses(core.world.trace);
    }
  }

  /** Handling a complete line keeps the core invariant. */
  lemma HandleLineInv(env: Env, core: Core, fd: int, line: string)
    requires CoreInv(core) && fd in core.world.descriptors
    ensures CoreInv(HandleLine(env, core, fd, line))
  {
    var after := HandleLine(env, core, fd, line);
    var e := Line(ConnOf(core.world, fd), line);
    HandleLineKeeps(env, core, fd, line);
    HandleLineViewers(env, core, fd, line);
    HandleLineCounts(env, core, fd, line);
    hide HandleLine, Watching, Expect, Offered, Handled, StatusOf;
    forall c: nat ensures Expect(after.world.trace, c) == Expect(core.world.trace, c) + Owed(core.world.trace, e, c) {
      Snoc(core.world.trace, e);
    }
    forall c | c in after.world.conns ensures Offered(after.world.conns[c].sends) == Expect(after.world.trace, c) {
      HandleLineSends(env, core, fd, line, c);
    }
    forall c: nat | c !in after.world.conns
      ensures Expect(after.world.trace, c) == [] && Handled(after.world.trace, c) == []
    {
      HandledSnoc(core.world.trace, e, c);
      OpenIsKnown(core, c);
    }
  }

  lemma OpenIsKnown(core: Core, c: nat)
    requires Linked(core) && ViewersWatch(core) && c !in core.world.conns
    ensures !Watching(core.world.trace, c)
  {
    hide Watching;
    assert !IsOpen(core.world, c);
  }

  // ---- all the lines of a buffer ----

  lemma GrownTransitive(a: map<nat, Conn>, b: map<nat, Conn>, c: map<nat, Conn>)
    requires Grown(a, b) && Grown(b, c)
    ensures Grown(a, c)
  {
  }

  lemma {:induction false} HandleLinesInv(env: Env, core: Core, fd: int, lines: seq<string>)
    requires CoreInv(core) && fd in core.world.descriptors
    ensures var after := HandleLines(env, core, fd, lines);
            && CoreInv(after)
            && after.world.descriptors == core.world.descriptors
            && after.world.conns.Keys == core.world.conns.Keys
            && (forall c :: c in core.world.conns ==> after.world.conns[c].received == core.world.conns[c].received)
            && Grown(core.world.conns, after.world.conns)
            && after.counters.totalAccepted == core.counters.totalAccepted
            && after.counters.totalDisconnected == core.counters.totalDisconnected
            && (forall c: nat :: Handled(after.world.trace, c)
                  == Handled(core.world.trace, c) + (if c == core.world.descriptors[fd] then lines else []))
  {
    hide HandleLine, CoreInv, Grown, Handled;
    if lines == [] {
      GrownReflexive(core.world.conns);
    } else {
      var front, line := lines[..|lines| - 1], lines[|lines| - 1];
      HandleLinesInv(env, core, fd, front);
      var mid := HandleLines(env, core, fd, front);
      HandleLineInv(env, mid, fd, line);
      HandleLineKeeps(env, mid, fd, line);
      var after := HandleLine(env, mid, fd, line);
      GrownTransitive(core.world.conns, mid.world.conns, after.world.conns);
      forall c: nat ensures Handled(after.world.trace, c)
        == Handled(core.world.trace, c) + (if c == core.world.descriptors[fd] then lines else [])
      {
        HandledSnoc(mid.world.trace, Line(ConnOf(mid.world, fd), line), c);
        assert lines == front + [line];
      }
    }
  }

  lemma GrownReflexive(a: map<nat, Conn>)
    ensures Grown(a, a)
  {
  }

  // ---- a readable descriptor ----

  /** Everything but the demand that no complete line is waiting. */
  ghost predicate Unsettled(s: State) {
    CoreInv(s.core) && SameKeys(s) && Framed(s)
  }

  lemma ReceiveCore(s: State, fd: int, data: string)
    requires CoreInv(s.core) && SameKeys(s) && fd in s.buffers
    ensures var after := Receive(s, fd, data); var c := s.core.world.descriptors[fd];
            && CoreInv(after.core) && SameKeys(after)
            && Grown(s.core.world.conns, after.core.world.conns)
            && c in s.core.world.conns
            && after.core.world == s.core.world.(conns := after.core.world.conns)
            && after.core.world.conns
                 == s.core.world.conns[c := s.core.world.conns[c].(received := s.core.world.conns[c].received + data)]
            && after.buffers == s.buffers[fd := s.buffers[fd] + data]
  {
    hide Expect, Offered, Watching, Handled, Statuses, LastById, BadLines, AckRequests, Opens, Closes;
  }

  lemma ReceiveFramed(s: State, after: State, fd: int, data: string)
    requires Linked(s.core) && Framed(s) && fd in s.buffers
    requires var c := s.core.world.descriptors[fd];
             && c in s.core.world.conns
             && after.core.world == s.core.world.(conns := after.core.world.conns)
             && after.core.world.conns
                  == s.core.world.conns[c := s.core.world.conns[c].(received := s.core.world.conns[c].received + data)]
             && after.buffers == s.buffers[fd := s.buffers[fd] + data]
    ensures Framed(after)
  {
    hide Lines, Rest, Handled;
    var w := s.core.world;
    var c := w.descriptors[fd];
    var received := w.conns[c].received;
    LinesOfChunks(s.buffers[fd], data);
    LinesOfChunks(received, data);
    assert FramedAt(w, c, s.buffers[fd]);
    ReceiveFrames(Handled(w.trace, c), Lines(s.buffers[fd]), Lines(Rest(received) + data), Lines(received));
    assert FramedAt(after.core.world, c, after.buffers[fd]);
    forall gd | gd in after.buffers && gd != fd
      ensures FramedAt(after.core.world, w.descriptors[gd], after.buffers[gd])
    {
      assert FramedAt(w, w.descriptors[gd], s.buffers[gd]);
    }
    assert IsOpen(after.core.world, c);
    forall d: nat | IsOpen(w, d) ensures IsOpen(after.core.world, d) {
      var gd :| gd in w.descriptors && w.descriptors[gd] == d;
      assert after.core.world.descriptors[gd] == d;
    }
  }

  lemma ReceiveInv(s: State, fd: int, data: string)
    requires Inv(s) && fd in s.buffers
    ensures var after := Receive(s, fd, data);
            && Unsettled(after)
            && Grown(s.core.world.conns, after.core.world.conns)
            && (forall gd :: gd in s.buffers && gd != fd ==> after.buffers[gd] == s.buffers[gd])
  {
    hide CoreInv, Framed, Receive, Grown;
    CoreIsLinked(s.core);
    ReceiveCore(s, fd, data);
    ReceiveFramed(s, Receive(s, fd, data), fd, data);
  }

  lemma ReceiveFrames(handled: seq<string>, waiting: seq<string>, more: seq<string>, received: seq<string>)
    requires handled + waiting == received
    ensures handled + (waiting + more) == received + more
  {
    assert handled + (waiting + more) == (handled + waiting) + more;
  }

  lemma DrainFramed(s: State, after: State, fd: int)
    requires Framed(s) && fd in s.buffers
    requires after.buffers == s.buffers[fd := Rest(s.buffers[fd])]
    requires var w, w' := s.core.world, after.core.world;
             && w'.descriptors == w.descriptors && w'.conns.Keys == w.conns.Keys
             && (forall c :: c in w.conns ==> w'.conns[c].received == w.conns[c].received)
             && (forall c: nat :: Handled(w'.trace, c)
                   == Handled(w.trace, c) + (if c == w.descriptors[fd] then Lines(s.buffers[fd]) else []))
    requires Linked(s.core)
    ensures Framed(after)
  {
    hide Lines, Rest, Handled;
    var w, buffer := s.core.world, s.buffers[fd];
    LinesAreTheBuffer(buffer);
    NoLines(Rest(buffer));
    forall gd | gd in after.buffers ensures FramedAt(after.core.world, w.descriptors[gd], after.buffers[gd]) {
      assert FramedAt(w, w.descriptors[gd], s.buffers[gd]);
      if gd == fd {
        assert Lines(Rest(buffer)) == [];
      }
    }
    forall d: nat | IsOpen(w, d) ensures IsOpen(after.core.world, d) {
      var gd :| gd in w.descriptors && w.descriptors[gd] == d;
      assert after.core.world.descriptors[gd] == d;
    }
    assert IsOpen(w, w.descriptors[fd]);
  }

  lemma DrainInv(env: Env, s: State, fd: int)
    requires Unsettled(s) && fd in s.buffers
    ensures var after := Drain(env, s, fd);
            && Unsettled(after)
            && Grown(s.core.world.conns, after.core.world.conns)
            && Free(after.buffers[fd], '\n')
            && (forall gd :: gd in s.buffers && gd != fd ==> after.buffers[gd] == s.buffers[gd])
  {
    hide Lines, Rest, CoreInv, Grown, Handled, HandleLines, Framed, Linked;
    CoreIsLinked(s.core);
    HandleLinesInv(env, s.core, fd, Lines(s.buffers[fd]));
    LinesAreTheBuffer(s.buffers[fd]);
    DrainFramed(s, Drain(env, s, fd), fd);
  }

  lemma CoreIsLinked(core: Core)
    requires CoreInv(core)
    ensures Linked(core)
  {
  }

  // ---- opening and closing ----

  /** An opening or a closing owes nobody anything and is not a line. */
  lemma QuietEntry(t: seq<Entry>, e: Entry)
    requires e.Opened? || e.Closed?
    ensures forall d: nat :: Expect(t + [e], d) == Expect(t, d) && Handled(t + [e], d) == Handled(t, d)
    ensures forall d: nat :: Watching(t + [e], d) <==> e != Closed(d) && Watching(t, d)
    ensures Statuses(t + [e]) == Statuses(t) && BadLines(t + [e]) == BadLines(t) && AckRequests(t + [e]) == AckRequests(t)
    ensures Opens(t + [e]) == Opens(t) + (if e.Opened? then 1 else 0)
    ensures Closes(t + [e]) == Closes(t) + (if e.Closed? then 1 else 0)
  {
    hide Watching, Expect, Handled, Statuses, BadLines, AckRequests, Opens, Closes;
    CountsSnoc(t, e);
    forall d: nat
      ensures Expect(t + [e], d) == Expect(t, d) && Handled(t + [e], d) == Handled(t, d)
      ensures Watching(t + [e], d) <==> e != Closed(d) && Watching(t, d)
    {
      WatchingSnoc(t, e, d);
      Snoc(t, e);
      HandledSnoc(t, e, d);
    }
  }

  lemma DisconnectCore(s: State, fd: int)
    requires CoreInv(s.core) && fd in s.core.world.descriptors
    ensures CoreInv(Disconnect(s, fd).core)
  {
    hide Watching, Expect, Offered, Handled, Statuses, BadLines, AckRequests, Opens, Closes, LastById;
    var w := s.core.world;
    var c := w.descriptors[fd];
    var after := Disconnect(s, fd).core;
    QuietEntry(w.trace, Closed(c));
    forall d: nat | Watching(after.world.trace, d) ensures IsOpen(after.world, d) {
      var gd :| gd in w.descriptors && w.descriptors[gd] == d;
      assert gd in after.world.descriptors;
    }
  }

  lemma DisconnectFramed(s: State, fd: int)
    requires Linked(s.core) && Framed(s) && fd in s.buffers && Free(s.buffers[fd], '\n')
    ensures Framed(Disconnect(s, fd))
  {
    hide Lines, Rest, Watching, Expect, Handled;
    var w := s.core.world;
    var c := w.descriptors[fd];
    var after := Disconnect(s, fd);
    QuietEntry(w.trace, Closed(c));
    NoLines(s.buffers[fd]);
    assert FramedAt(w, c, s.buffers[fd]);
    forall gd | gd in after.buffers
      ensures FramedAt(after.core.world, after.core.world.descriptors[gd], after.buffers[gd])
    {
      assert FramedAt(w, w.descriptors[gd], s.buffers[gd]);
    }
    forall d: nat | d != c && IsOpen(w, d) ensures IsOpen(after.core.world, d) {
      var gd :| gd in w.descriptors && w.descriptors[gd] == d;
      assert gd in after.core.world.descriptors;
    }
    assert Handled(w.trace, c) + [] == Handled(w.trace, c);
  }

  /** Closing a connection whose lines are all handled keeps the invariant. */
  lemma DisconnectInv(s: State, fd: int)
    requires Unsettled(s) && fd in s.buffers && Free(s.buffers[fd], '\n')
    ensures Unsettled(Disconnect(s, fd))
  {
    DisconnectCore(s, fd);
    DisconnectFramed(s, fd);
    hide CoreInv, Framed;
    assert s.telemetry == Disconnect(s, fd).telemetry + {fd};
  }

  lemma AcceptCore(s: State, fd: int)
    requires CoreInv(s.core) && fd >= 0 && fd !in s.core.world.descriptors
    ensures CoreInv(Accept(s, fd).core)
  {
    hide Watching, Expect, Handled, Statuses, BadLines, AckRequests, Opens, Closes, LastById;
    var w := s.core.world;
    var c := s.core.counters.totalAccepted;
    var after := Accept(s, fd).core;
    QuietEntry(w.trace, Opened(c));
    OpenIsKnown(s.core, c);
    assert Offered([]) == [];
    forall d: nat | Watching(after.world.trace, d) ensures IsOpen(after.world, d) {
      var gd :| gd in w.descriptors && w.descriptors[gd] == d;
      assert after.world.descriptors[gd] == d;
    }
  }

  lemma NextIsUnknown(core: Core)
    requires CoreInv(core)
    ensures core.counters.totalAccepted !in core.world.conns && Handled(core.world.trace, core.counters.totalAccepted) == []
  {
    hide Watching, Expect, Handled, Offered, CountsAsHandled;
  }

  lemma AcceptFramed(s: State, fd: int)
    requires Linked(s.core) && Framed(s) && fd !in s.core.world.descriptors
    requires var c := s.core.counters.totalAccepted; c !in s.core.world.conns && Handled(s.core.world.trace, c) == []
    ensures Framed(Accept(s, fd))
  {
    hide Lines, Rest, Watching, Expect, Handled, Statuses, BadLines, AckRequests, Opens, Closes;
    var w := s.core.world;
    var c := s.core.counters.totalAccepted;
    var after := Accept(s, fd);
    QuietEntry(w.trace, Opened(c));
    NoLines("");
    forall gd | gd in after.buffers
      ensures after.core.world.descriptors[gd] in after.core.world.conns
      ensures FramedAt(after.core.world, after.core.world.descriptors[gd], after.buffers[gd])
    {
      if gd != fd {
        assert FramedAt(w, w.descriptors[gd], s.buffers[gd]);
      }
    }
    assert after.core.world.descriptors[fd] == c;
    forall d: nat | IsOpen(w, d) ensures IsOpen(after.core.world, d) {
      var gd :| gd in w.descriptors && w.descriptors[gd] == d;
      assert after.core.world.descriptors[gd] == d;
    }
  }

  /**
   A new connection starts clean, whatever its descriptor was used for before:
   nothing received, nothing buffered, not a viewer.
   */
  lemma AcceptInv(s: State, fd: int)
    requires Inv(s) && fd >= 0 && fd !in s.core.world.descriptors
    ensures var after := Accept(s, fd);
            && Inv(after)
            && Grown(s.core.world.conns, after.core.world.conns)
            && after.core.world.descriptors == s.core.world.descriptors[fd := s.core.counters.totalAccepted]
            && after.core.world.conns[s.core.counters.totalAccepted] == Conn("", [])
            && after.buffers[fd] == "" && fd !in after.core.viewers
  {
    hide CoreInv, Framed;
    CoreIsLinked(s.core);
    NextIsUnknown(s.core);
    AcceptCore(s, fd);
    AcceptFramed(s, fd);
    assert fd !in s.core.viewers && s.core.counters.totalAccepted !in s.core.world.conns;
  }

  // ---- reporting ----

  lemma ReportEntry(t: seq<Entry>, e: Entry)
    requires e.Reported?
    ensures forall d: nat :: Handled(t + [e], d) == Handled(t, d) && (Watching(t + [e], d) <==> Watching(t, d))
    ensures forall d: nat :: Expect(t + [e], d) == Expect(t, d) + (if Watching(t, d) then [Report(e.metrics)] else [])
    ensures Statuses(t + [e]) == Statuses(t) && BadLines(t + [e]) == BadLines(t) && AckRequests(t + [e]) == AckRequests(t)
    ensures Opens(t + [e]) == Opens(t) && Closes(t + [e]) == Closes(t)
  {
    hide Watching, Expect, Handled, Statuses, BadLines, AckRequests, Opens, Closes;
    CountsSnoc(t, e);
    forall d: nat
      ensures Handled(t + [e], d) == Handled(t, d) && (Watching(t + [e], d) <==> Watching(t, d))
      ensures Expect(t + [e], d) == Expect(t, d) + (if Watching(t, d) then [Report(e.metrics)] else [])
    {
      WatchingSnoc(t, e, d);
      Snoc(t, e);
      HandledSnoc(t, e, d);
    }
  }

  lemma PublishSends(env: Env, core: Core, active: nat, nowMs: nat, c: nat)
    requires CoreInv(core) && c in core.world.conns
    ensures var after := Publish(env, core, active, nowMs);
            c in after.world.conns && Offered(after.world.conns[c].sends) == Expect(after.world.trace, c)
  {
    var metrics := Snapshot(core.counters, active, |core.store|, nowMs);
    var e := Reported(metrics, core.counters.lastReportMs, nowMs);
    var noted := Note(core, e);
    PublishOffers(env, core, noted, metrics, c);
    hide Watching, Expect, Handled, Offered, Snapshot, CoreInv, SendAll, Failures;
    ReportEntry(core.world.trace, e);
    SendAllFields(env, noted.world, noted.viewers - {-1}, Report(metrics));
  }

  lemma PublishOffers(env: Env, core: Core, noted: Core, metrics: ServerMetrics, c: nat)
    requires CoreInv(core) && c in core.world.conns
    requires noted == core.(world := core.world.(trace := noted.world.trace))
    ensures var after := SendAll(env, noted.world, noted.viewers - {-1}, Report(metrics));
            && c in after.conns
            && Offered(after.conns[c].sends)
                 == Expect(core.world.trace, c) + (if Watching(core.world.trace, c) then [Report(metrics)] else [])
  {
    hide Watching, Expect, Handled, Offered, CountsAsHandled, NothingBeforeAccept;
    var w := core.world;
    TargetsWatch(core, -1, c);
    assert -1 !in w.descriptors;
    assert Targets(noted.world, noted.viewers - {-1}) == Targets(w, core.viewers - {-1});
    if Watching(w.trace, c) {
      OfferedSnoc(w.conns[c].sends, Attempt(Report(metrics), Outcome(env, noted.world, c)));
    }
  }

  lemma PublishKeeps(env: Env, core: Core, active: nat, nowMs: nat)
    ensures var after := Publish(env, core, active, nowMs);
            && Keeps(core, after, Reported(Snapshot(core.counters, active, |core.store|, nowMs), core.counters.lastReportMs, nowMs))
            && (forall d: nat :: Handled(after.world.trace, d) == Handled(core.world.trace, d))
            && after.viewers == core.viewers && after.store == core.store && after.world.ticks == core.world.ticks
            && after.counters == core.counters.(lastReportMs := nowMs,
                                                lastReportStatusReceived := core.counters.statusReceived,
                                                broadcastErrors := after.counters.broadcastErrors)
  {
    hide Snapshot, Handled, SendAll;
    var w := core.world;
    var metrics := Snapshot(core.counters, active, |core.store|, nowMs);
    var e := Reported(metrics, core.counters.lastReportMs, nowMs);
    var noted := w.(trace := w.trace + [e]);
    ReportEntry(w.trace, e);
    SendAllKeeps(env, noted, core.viewers - {-1}, Report(metrics));
    SendAllFields(env, noted, core.viewers - {-1}, Report(metrics));
  }

  /** Publishing a report keeps the core invariant. */
  lemma PublishInv(env: Env, core: Core, active: nat, nowMs: nat)
    requires CoreInv(core)
    ensures CoreInv(Publish(env, core, active, nowMs))
  {
    hide Watching, Expect, Handled, Offered, Snapshot, Statuses, BadLines, AckRequests, Opens, Closes, LastById, Publish;
    var w := core.world;
    var metrics := Snapshot(core.counters, active, |core.store|, nowMs);
    ReportEntry(w.trace, Reported(metrics, core.counters.lastReportMs, nowMs));
    PublishKeeps(env, core, active, nowMs);
    var after := Publish(env, core, active, nowMs);
    forall c | c in after.world.conns ensures Offered(after.world.conns[c].sends) == Expect(after.world.trace, c) {
      PublishSends(env, core, active, nowMs, c);
    }
    forall c: nat | c !in after.world.conns ensures Expect(after.world.trace, c) == [] {
      OpenIsKnown(core, c);
    }
  }
}
