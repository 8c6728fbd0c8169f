/**
 The traffic phase of the load generator: a token bucket decides when to send, a
 round-robin cursor decides who sends, and acknowledgements or errors end waits.
 */
module TrafficLoop {
  import opened Text
  import opened Decimal
  import opened LoadgenClient

  datatype Config = Config(rate: nat, connectedMs: nat, endMs: nat)

  /** `--rate` and `--duration` are positive. */
  predicate ValidConfig(cfg: Config) { cfg.rate > 0 && cfg.connectedMs + 1000 <= cfg.endMs }

  /** Clock readings, and the result of the k-th `send`. */
  datatype Env = Env(clock: nat -> u64, send: nat -> SendResult)

  ghost predicate Monotone(env: Env) {
    forall i: nat, j: nat :: i <= j ==> env.clock(i) <= env.clock(j)
  }

  datatype PollEvent = PollEvent(fd: int, failed: bool, readable: bool, chunks: seq<string>, end: RecvEnd)

  datatype Poll = Interrupted | PollFailed | Events(events: seq<PollEvent>)

  /** What an observer counts beside the program's own variables. */
  datatype Log = Log(
    lost: nat,              // clients closed while a STATUS was unanswered
    closed: nat,            // clients closed at all
    sends: map<int, nat>,   // successful sends per descriptor
    creditedUntil: nat)     // last tick before the deadline

  datatype Traffic = Traffic(
    order: seq<int>,                  // iteration order of the client table
    clients: map<int, ClientState>,
    latencies: seq<u64>,
    errors: nat,
    sent: nat,
    credit: real,
    next: nat,
    lastTick: nat,
    ticks: nat,
    attempts: nat,
    halted: bool,                     // an exception has left the program
    log: Log)

  // ---- sending ----

  function Chosen(t: Traffic): int
    requires t.order != []
  {
    t.order[t.next % |t.order|]
  }

  predicate MaySend(t: Traffic, endMs: nat, currentMs: nat) {
    t.credit >= 1.0 && t.order != [] && currentMs < endMs
  }

  predicate ChosenIsReady(t: Traffic)
    requires t.order != []
  {
    Chosen(t) in t.clients && t.clients[Chosen(t)].phase == Ready
  }

  /** One attempt by the client under the cursor. */
  function Attempt(env: Env, t: Traffic): Traffic
    requires t.order != [] && ChosenIsReady(t)
  {
    var fd := Chosen(t);
    var tried := t.(ticks := t.ticks + 1, attempts := t.attempts + 1);
    match SendStatus(t.clients[fd], env.clock(t.ticks), env.send(t.attempts))
    case Went(c) =>
      var before := if fd in t.log.sends then t.log.sends[fd] else 0;
      tried.(clients := t.clients[fd := c], sent := t.sent + 1, credit := t.credit - 1.0, next := t.next + 1,
             log := t.log.(sends := t.log.sends[fd := before + 1]))
    case Blocked(c) => tried.(clients := t.clients[fd := c])
    case Thrown(c) => tried.(clients := t.clients[fd := c], halted := true)
  }

  /** The sending loop: it stops at the first client that is not ready or cannot send. */
  function SendLoop(env: Env, t: Traffic, endMs: nat, currentMs: nat): Traffic
    decreases if t.credit >= 1.0 then t.credit.Floor else 0
  {
    if !MaySend(t, endMs, currentMs) || !ChosenIsReady(t) then t
    else
      var tried := Attempt(env, t);
      if tried.sent == t.sent then tried else SendLoop(env, tried, endMs, currentMs)
  }

  // ---- receiving ----

  function Without(order: seq<int>, fd: int): seq<int> {
    if order == [] then []
    else if order[0] == fd then Without(order[1..], fd)
    else [order[0]] + Without(order[1..], fd)
  }

  /** The exception handler: count the error, drop the client. Erasing keeps the order of the others. */
  function CloseOnError(t: Traffic, fd: int): Traffic
    requires fd in t.clients
  {
    t.(order := Without(t.order, fd),
       clients := t.clients - {fd},
       errors := t.errors + 1,
       log := t.log.(lost := t.log.lost + (if t.clients[fd].phase == WaitingAck then 1 else 0),
                     closed := t.log.closed + 1))
  }

  function HandlePoll(env: Env, t: Traffic, event: PollEvent): Traffic {
    var fd := event.fd;
    if fd !in t.clients then t
    else if event.failed then CloseOnError(t, fd)
    else if t.clients[fd].phase == WaitingAck && event.readable then
      match ReceiveAck(t.clients[fd], event.chunks, event.end)
      case GotAck(c, _, _) =>
        t.(clients := t.clients[fd := c], ticks := t.ticks + 1,
           latencies := t.latencies + [Wrap(env.clock(t.ticks) - c.sentMs)])
      case StillWaiting(c) => t.(clients := t.clients[fd := c])
      case Broken(c) => CloseOnError(t.(clients := t.clients[fd := c]), fd)
    else t
  }

  function HandlePolls(env: Env, t: Traffic, events: seq<PollEvent>): Traffic {
    if events == [] then t
    else HandlePoll(env, HandlePolls(env, t, events[..|events| - 1]), events[|events| - 1])
  }

  // ---- the loop ----

  /** The loop condition, which reads the clock. */
  predicate Continues(env: Env, t: Traffic, endMs: nat) {
    env.clock(t.ticks) < endMs || |t.latencies| < t.sent
  }

  /** The credit earned since the last tick, before the deadline only. */
  function Accrue(cfg: Config, t: Traffic, currentMs: nat): Traffic {
    if currentMs < cfg.endMs then
      t.(credit := t.credit + cfg.rate as real * (currentMs - t.lastTick) as real / 1000.0,
         lastTick := currentMs,
         log := t.log.(creditedUntil := currentMs))
    else t.(lastTick := currentMs)
  }

  /** One turn of the loop, condition included. */
  function Turn(env: Env, cfg: Config, t: Traffic, poll: Poll): Traffic {
    var currentMs := env.clock(t.ticks + 1);
    var sentOut := SendLoop(env, Accrue(cfg, t.(ticks := t.ticks + 2), currentMs), cfg.endMs, currentMs);
    if sentOut.halted then sentOut
    else
      match poll
      case Interrupted => sentOut
      case PollFailed => sentOut.(halted := true)
      case Events(events) => HandlePolls(env, sentOut, events)
  }

  function Turns(env: Env, cfg: Config, t: Traffic, polls: seq<Poll>): Traffic {
    if polls == [] then t else Turn(env, cfg, Turns(env, cfg, t, polls[..|polls| - 1]), polls[|polls| - 1])
  }

  // ---- the invariant ----

  function Waiting(clients: map<int, ClientState>): set<int> {
    set fd | fd in clients && clients[fd].phase == WaitingAck
  }

  predicate Distinct(order: seq<int>) {
    forall i, j :: 0 <= i < j < |order| ==> order[i] != order[j]
  }

  ghost predicate Listed(t: Traffic) {
    && (forall fd :: fd in t.clients <==> fd in t.order)
    && Distinct(t.order)
  }

  /** Every STATUS sent was answered, is awaited, or was lost with its connection. */
  ghost predicate Conserved(t: Traffic) {
    t.sent == |t.latencies| + |Waiting(t.clients)| + t.log.lost && t.log.lost <= t.log.closed
  }

  /** Credit in hand plus messages sent is exactly what was earned. */
  ghost predicate Funded(cfg: Config, t: Traffic) {
    && t.credit >= 0.0
    && t.credit + t.sent as real == cfg.rate as real * (t.log.creditedUntil - cfg.connectedMs) as real / 1000.0
    && cfg.connectedMs <= t.log.creditedUntil <= t.lastTick
    && t.log.creditedUntil < cfg.endMs
    && (t.lastTick < cfg.endMs ==> t.log.creditedUntil == t.lastTick)
  }

  ghost predicate OnTime(env: Env, t: Traffic) {
    && t.lastTick <= env.clock(t.ticks)
    && (forall fd :: fd in t.clients ==> t.clients[fd].sentMs <= env.clock(t.ticks))
  }

  /** The share of `next` round-robin turns that falls to position `j` of `n`. */
  function Share(next: nat, n: nat, j: nat): nat
    requires n > 0
  {
    next / n + (if j < next % n then 1 else 0)
  }

  ghost predicate Fair(t: Traffic) {
    && (forall fd :: fd in t.clients ==> fd in t.log.sends && t.clients[fd].sequence == Wrap(t.log.sends[fd]))
    && (t.log.closed == 0 ==>
          forall j :: 0 <= j < |t.order| ==>
            t.order[j] in t.log.sends && t.log.sends[t.order[j]] == Share(t.next, |t.order|, j))
  }

  ghost predicate TrafficInv(env: Env, cfg: Config, t: Traffic) {
    !t.halted && Listed(t) && Conserved(t) && Funded(cfg, t) && OnTime(env, t) && Fair(t)
  }

  /** An exception leaves the accounts of messages and credit exact. */
  ghost predicate InvOrHalted(env: Env, cfg: Config, t: Traffic) {
    if t.halted then Conserved(t) && Funded(cfg, t) else TrafficInv(env, cfg, t)
  }

  // ---- one attempt ----

  /** The next turn goes to the position under the cursor and to no other. */
  lemma ShareOfNext(next: nat, n: nat, j: nat)
    requires n > 0 && j < n
    ensures Share(next + 1, n, j) == Share(next, n, j) + (if j == next % n then 1 else 0)
  {
    var q, r := next / n, next % n;
    assert next == q * n + r;
    if r + 1 < n {
      DivModUnique(next + 1, n, q, r + 1);
    } else {
      assert next + 1 == (q + 1) * n;
      DivModUnique(next + 1, n, q + 1, 0);
    }
  }

  lemma DivModUnique(a: nat, n: nat, q: nat, r: nat)
    requires n > 0 && r < n && a == q * n + r
    ensures a / n == q && a % n == r
  {
    var d := a / n - q;
    assert a == (a / n) * n + a % n;
    assert d * n == r - a % n;
    assert d >= 1 ==> d * n >= n;
    assert d <= -1 ==> d * n <= 0 - n;
  }

  /** What one attempt changes: the client under the cursor, and the accounts only if the message went. */
  lemma AttemptEffect(env: Env, t: Traffic)
    requires t.order != [] && ChosenIsReady(t)
    ensures var after := Attempt(env, t); var fd := Chosen(t);
            && fd in after.clients && after.clients == t.clients[fd := after.clients[fd]]
            && after.order == t.order && after.latencies == t.latencies
            && after.log == t.log.(sends := after.log.sends)
            && (if after.sent != t.sent
                then
                  && after.sent == t.sent + 1 && after.next == t.next + 1
                  && after.clients[fd].phase == WaitingAck
                  && after.clients[fd].sequence == Wrap(t.clients[fd].sequence + 1)
                  && after.log.sends == t.log.sends[fd := (if fd in t.log.sends then t.log.sends[fd] else 0) + 1]
                else
                  && after.next == t.next && after.log == t.log
                  && after.clients[fd].phase == Ready
                  && (after.halted || after.clients[fd].sequence == t.clients[fd].sequence))
  {
  }

  lemma AttemptConserves(env: Env, t: Traffic)
    requires t.order != [] && ChosenIsReady(t) && Conserved(t)
    ensures Conserved(Attempt(env, t))
  {
    AttemptEffect(env, t);
    hide Attempt;
    var after := Attempt(env, t);
    if after.sent != t.sent {
      assert Waiting(after.clients) == Waiting(t.clients) + {Chosen(t)};
    } else {
      assert Waiting(after.clients) == Waiting(t.clients);
    }
  }

  lemma AttemptIsFair(env: Env, t: Traffic)
    requires t.order != [] && ChosenIsReady(t) && Listed(t) && Fair(t)
    ensures Fair(Attempt(env, t)) || Attempt(env, t).halted
  {
    AttemptEffect(env, t);
    var after, n := Attempt(env, t), |t.order|;
    hide Share, Attempt, Wrap;
    if after.sent != t.sent {
      assert after.clients[Chosen(t)].sequence == Wrap(after.log.sends[Chosen(t)]) by {
        WrapNext(t.log.sends[Chosen(t)]);
      }
      if t.log.closed == 0 {
        forall j | 0 <= j < n
          ensures t.order[j] in after.log.sends && after.log.sends[t.order[j]] == Share(after.next, n, j)
        {
          ShareOfNext(t.next, n, j);
        }
      }
    }
  }

  lemma AttemptInv(env: Env, cfg: Config, t: Traffic)
    requires Monotone(env) && t.order != [] && ChosenIsReady(t) && t.credit >= 1.0
    requires TrafficInv(env, cfg, t)
    ensures InvOrHalted(env, cfg, Attempt(env, t))
    ensures Attempt(env, t).sent != t.sent ==> !Attempt(env, t).halted
  {
    hide Share, Waiting;
    AttemptConserves(env, t);
    AttemptIsFair(env, t);
    assert env.clock(t.ticks) <= env.clock(t.ticks + 1);
  }

  lemma {:induction false} SendLoopInv(env: Env, cfg: Config, t: Traffic, currentMs: nat)
    requires Monotone(env) && TrafficInv(env, cfg, t)
    ensures InvOrHalted(env, cfg, SendLoop(env, t, cfg.endMs, currentMs))
    decreases if t.credit >= 1.0 then t.credit.Floor else 0
  {
    hide Listed, Conserved, Funded, OnTime, Fair;
    if MaySend(t, cfg.endMs, currentMs) && ChosenIsReady(t) {
      AttemptInv(env, cfg, t);
      var tried := Attempt(env, t);
      if tried.sent != t.sent {
        SendLoopInv(env, cfg, tried, currentMs);
      }
    }
  }

  // ---- polls ----

  lemma {:induction false} WithoutKeepsOthers(order: seq<int>, fd: int)
    requires Distinct(order)
    ensures forall gd :: gd in Without(order, fd) <==> gd in order && gd != fd
    ensures Distinct(Without(order, fd))
  {
    if order != [] {
      WithoutKeepsOthers(order[1..], fd);
      var rest := Without(order[1..], fd);
      assert order[0] !in order[1..];
      assert forall gd :: gd in order <==> gd == order[0] || gd in order[1..];
      DistinctCons(order[0], rest);
    }
  }

  lemma DistinctCons(head: int, tail: seq<int>)
    requires Distinct(tail)
    ensures head !in tail ==> Distinct([head] + tail)
  {
    var whole := [head] + tail;
    if head !in tail {
      forall i, j | 0 <= i < j < |whole| ensures whole[i] != whole[j] {
        assert whole[j] == tail[j - 1];
        if i > 0 {
          assert whole[i] == tail[i - 1];
        }
      }
    }
  }

  lemma CloseConserves(t: Traffic, fd: int)
    requires Conserved(t) && fd in t.clients
    ensures Conserved(CloseOnError(t, fd))
  {
    hide Without;
    var after := CloseOnError(t, fd);
    if t.clients[fd].phase == WaitingAck {
      assert Waiting(t.clients) == Waiting(after.clients) + {fd};
    } else {
      assert Waiting(t.clients) == Waiting(after.clients);
    }
  }

  lemma CloseInv(env: Env, cfg: Config, t: Traffic, fd: int)
    requires TrafficInv(env, cfg, t) && fd in t.clients
    ensures TrafficInv(env, cfg, CloseOnError(t, fd))
  {
    hide Without, Share, Listed, Conserved;
    CloseConserves(t, fd);
    ListedWithout(t, fd);
  }

  lemma ListedWithout(t: Traffic, fd: int)
    requires Listed(t) && fd in t.clients
    ensures Listed(CloseOnError(t, fd))
  {
    hide Without;
    WithoutKeepsOthers(t.order, fd);
    var after := CloseOnError(t, fd);
    forall gd ensures gd in after.clients <==> gd in after.order {
      assert gd in after.clients <==> gd in t.clients && gd != fd;
      assert gd in after.order <==> gd in t.order && gd != fd;
    }
  }

  /** Replacing a client's buffer or phase, nothing else, keeps all but the account of messages. */
  lemma ClientReplaced(env: Env, cfg: Config, t: Traffic, fd: int, c: ClientState, after: Traffic)
    requires Monotone(env) && TrafficInv(env, cfg, t) && fd in t.clients
    requires c == t.clients[fd].(receiveBuffer := c.receiveBuffer, phase := c.phase)
    requires t.ticks <= after.ticks
    requires after == t.(clients := t.clients[fd := c], ticks := after.ticks, latencies := after.latencies)
    ensures Listed(after) && Funded(cfg, after) && OnTime(env, after) && Fair(after)
  {
    hide Share;
    assert env.clock(t.ticks) <= env.clock(after.ticks);
  }

  lemma WaitingReplaced(clients: map<int, ClientState>, fd: int, c: ClientState)
    requires fd in clients && clients[fd].phase == WaitingAck
    ensures c.phase == WaitingAck ==> Waiting(clients[fd := c]) == Waiting(clients)
    ensures c.phase == Ready ==> |Waiting(clients[fd := c])| == |Waiting(clients)| - 1
  {
    assert fd in Waiting(clients);
    if c.phase == Ready {
      assert Waiting(clients[fd := c]) == Waiting(clients) - {fd};
    }
  }

  lemma ReceiveAckKeepsClient(c: ClientState, chunks: seq<string>, end: RecvEnd)
    ensures var r := ReceiveAck(c, chunks, end);
            && r.client == c.(receiveBuffer := r.client.receiveBuffer, phase := r.client.phase)
            && (r.GotAck? ==> r.client.phase == Ready)
            && (!r.GotAck? ==> r.client.phase == c.phase)
  {
    ReceiveAckUses(c, chunks, end);
  }

  lemma PollInv(env: Env, cfg: Config, t: Traffic, event: PollEvent)
    requires Monotone(env) && TrafficInv(env, cfg, t)
    ensures TrafficInv(env, cfg, HandlePoll(env, t, event))
  {
    var fd := event.fd;
    if fd in t.clients && event.failed {
      CloseInv(env, cfg, t, fd);
    } else if fd in t.clients && t.clients[fd].phase == WaitingAck && event.readable {
      ReceiveInv(env, cfg, t, event);
    }
  }

  lemma ReceiveInv(env: Env, cfg: Config, t: Traffic, event: PollEvent)
    requires Monotone(env) && TrafficInv(env, cfg, t)
    requires event.fd in t.clients && !event.failed && t.clients[event.fd].phase == WaitingAck && event.readable
    ensures TrafficInv(env, cfg, HandlePoll(env, t, event))
  {
    hide ReceiveAck, CloseOnError, Listed, Funded, OnTime, Fair, Waiting, Monotone;
    var fd := event.fd;
    var r := ReceiveAck(t.clients[fd], event.chunks, event.end);
    ReceiveAckKeepsClient(t.clients[fd], event.chunks, event.end);
    WaitingReplaced(t.clients, fd, r.client);
    if r.GotAck? {
      ClientReplaced(env, cfg, t, fd, r.client, HandlePoll(env, t, event));
    } else {
      var after := t.(clients := t.clients[fd := r.client]);
      ClientReplaced(env, cfg, t, fd, r.client, after);
      if r.Broken? {
        CloseInv(env, cfg, after, fd);
      }
    }
  }

  lemma {:induction false} PollsInv(env: Env, cfg: Config, t: Traffic, events: seq<PollEvent>)
    requires Monotone(env) && TrafficInv(env, cfg, t)
    ensures TrafficInv(env, cfg, HandlePolls(env, t, events))
  {
    hide TrafficInv, HandlePoll;
    if events != [] {
      PollsInv(env, cfg, t, events[..|events| - 1]);
      PollInv(env, cfg, HandlePolls(env, t, events[..|events| - 1]), events[|events| - 1]);
    }
  }

  // ---- the loop ----

  lemma AccrueFunded(cfg: Config, t: Traffic, currentMs: nat)
    requires Funded(cfg, t) && t.lastTick <= currentMs
    ensures Funded(cfg, Accrue(cfg, t, currentMs))
  {
    if currentMs < cfg.endMs {
      Earned(cfg.rate as real, (t.log.creditedUntil - cfg.connectedMs) as real, (currentMs - t.lastTick) as real);
    }
  }

  lemma AccrueInv(env: Env, cfg: Config, t: Traffic)
    requires Monotone(env) && ValidConfig(cfg) && TrafficInv(env, cfg, t)
    ensures TrafficInv(env, cfg, Accrue(cfg, t.(ticks := t.ticks + 2), env.clock(t.ticks + 1)))
  {
    hide Share, Funded;
    var currentMs := env.clock(t.ticks + 1);
    assert env.clock(t.ticks) <= currentMs <= env.clock(t.ticks + 2);
    assert Funded(cfg, t.(ticks := t.ticks + 2)) by { TicksAreNotFunds(cfg, t, t.ticks + 2); }
    AccrueFunded(cfg, t.(ticks := t.ticks + 2), currentMs);
  }

  lemma TicksAreNotFunds(cfg: Config, t: Traffic, ticks: nat)
    requires Funded(cfg, t)
    ensures Funded(cfg, t.(ticks := ticks))
  {
  }

  lemma Earned(rate: real, before: real, more: real)
    requires rate >= 0.0 && more >= 0.0
    ensures rate * before / 1000.0 + rate * more / 1000.0 == rate * (before + more) / 1000.0
    ensures rate * more / 1000.0 >= 0.0
  {
    assert rate * before + rate * more == rate * (before + more);
    assert rate * more >= 0.0;
  }

  /** Every turn of the loop, whatever the clock, the socket and epoll do, keeps the invariant. */
  lemma TurnInv(env: Env, cfg: Config, t: Traffic, poll: Poll)
    requires Monotone(env) && ValidConfig(cfg) && TrafficInv(env, cfg, t)
    ensures InvOrHalted(env, cfg, Turn(env, cfg, t, poll))
    ensures var after := Turn(env, cfg, t, poll); var reading := env.clock(t.ticks + 1);
            && after.lastTick == reading
            && after.log.creditedUntil == (if reading < cfg.endMs then reading else t.log.creditedUntil)
  {
    TurnKeepsTime(env, cfg, t, poll);
    hide Listed, Conserved, Funded, OnTime, Fair, SendLoop, HandlePolls;
    var currentMs := env.clock(t.ticks + 1);
    AccrueInv(env, cfg, t);
    var accrued := Accrue(cfg, t.(ticks := t.ticks + 2), currentMs);
    SendLoopInv(env, cfg, accrued, currentMs);
    var sentOut := SendLoop(env, accrued, cfg.endMs, currentMs);
    if !sentOut.halted {
      match poll
      case Interrupted =>
      case PollFailed => HaltedKeepsAccounts(cfg, sentOut);
      case Events(events) => PollsInv(env, cfg, sentOut, events);
    }
  }

  lemma HaltedKeepsAccounts(cfg: Config, t: Traffic)
    requires Conserved(t) && Funded(cfg, t)
    ensures Conserved(t.(halted := true)) && Funded(cfg, t.(halted := true))
  {
  }

  /** The state in which the traffic phase begins: connected clients, nothing sent. */
  ghost predicate Begins(env: Env, cfg: Config, t: Traffic) {
    && ValidConfig(cfg)
    && (forall fd :: fd in t.clients <==> fd in t.order)
    && Distinct(t.order)
    && (forall fd :: fd in t.clients ==>
          t.clients[fd].phase != WaitingAck && t.clients[fd].sequence == 0 && t.clients[fd].sentMs == 0)
    && t.latencies == [] && t.sent == 0 && t.credit == 0.0 && t.next == 0 && !t.halted
    && t.lastTick == cfg.connectedMs <= env.clock(t.ticks)
    && t.log == Log(0, 0, map fd | fd in t.clients :: 0, cfg.connectedMs)
  }

  lemma NobodyWaits(clients: map<int, ClientState>)
    requires forall fd :: fd in clients ==> clients[fd].phase != WaitingAck
    ensures |Waiting(clients)| == 0
  {
    forall fd | fd in Waiting(clients) ensures false {
    }
    assert Waiting(clients) == {};
  }

  lemma BeginsInv(env: Env, cfg: Config, t: Traffic)
    requires Monotone(env) && Begins(env, cfg, t)
    ensures TrafficInv(env, cfg, t)
  {
    NobodyWaits(t.clients);
    forall j | 0 <= j < |t.order| ensures Share(0, |t.order|, j) == 0 {
      DivModUnique(0, |t.order|, 0, 0);
    }
  }

  lemma {:induction false} TurnsInv(env: Env, cfg: Config, t: Traffic, polls: seq<Poll>)
    requires Monotone(env) && Begins(env, cfg, t)
    requires forall i :: 0 <= i < |polls| ==> !Turns(env, cfg, t, polls[..i]).halted
    ensures InvOrHalted(env, cfg, Turns(env, cfg, t, polls))
  {
    hide Turn, Listed, Conserved, Funded, OnTime, Fair;
    if polls == [] {
      BeginsInv(env, cfg, t);
    } else {
      var front := polls[..|polls| - 1];
      forall i | 0 <= i < |front| ensures !Turns(env, cfg, t, front[..i]).halted {
        assert front[..i] == polls[..i];
      }
      TurnsInv(env, cfg, t, front);
      assert polls[..|front|] == front;
      BeginsConfig(env, cfg, t);
      TurnInv(env, cfg, Turns(env, cfg, t, front), polls[|front|]);
    }
  }

  lemma BeginsConfig(env: Env, cfg: Config, t: Traffic)
    requires Begins(env, cfg, t)
    ensures ValidConfig(cfg)
  {
  }

  // ---- what a turn does ----

  lemma {:induction false} SendLoopKeepsTime(env: Env, t: Traffic, endMs: nat, currentMs: nat)
    ensures var after := SendLoop(env, t, endMs, currentMs);
            && after.lastTick == t.lastTick && after.log.creditedUntil == t.log.creditedUntil
            && after.errors == t.errors && after.log.closed == t.log.closed
            && after.clients.Keys == t.clients.Keys
    decreases if t.credit >= 1.0 then t.credit.Floor else 0
  {
    if MaySend(t, endMs, currentMs) && ChosenIsReady(t) {
      var tried := Attempt(env, t);
      AttemptEffect(env, t);
      assert tried.clients.Keys == t.clients.Keys;
      if tried.sent != t.sent {
        SendLoopKeepsTime(env, tried, endMs, currentMs);
      }
    }
  }

  lemma {:induction false} PollsKeepTime(env: Env, t: Traffic, events: seq<PollEvent>)
    ensures var after := HandlePolls(env, t, events);
            && after.lastTick == t.lastTick && after.log.creditedUntil == t.log.creditedUntil
            && after.halted == t.halted
  {
    hide ReceiveAck;
    if events != [] {
      PollsKeepTime(env, t, events[..|events| - 1]);
    }
  }

  /**
   Every turn advances the tick to its own clock reading, and counts the time up to
   it as credited exactly when the reading is before the deadline.
   */
  lemma TurnKeepsTime(env: Env, cfg: Config, t: Traffic, poll: Poll)
    ensures var after := Turn(env, cfg, t, poll); var reading := env.clock(t.ticks + 1);
            && after.lastTick == reading
            && after.log.creditedUntil == (if reading < cfg.endMs then reading else t.log.creditedUntil)
  {
    hide SendLoop, HandlePolls;
    var currentMs := env.clock(t.ticks + 1);
    var accrued := Accrue(cfg, t.(ticks := t.ticks + 2), currentMs);
    SendLoopKeepsTime(env, accrued, cfg.endMs, currentMs);
    if poll.Events? {
      PollsKeepTime(env, SendLoop(env, accrued, cfg.endMs, currentMs), poll.events);
    }
  }

  /** The clock reading the `i`-th turn works with. */
  function Reading(env: Env, cfg: Config, t: Traffic, polls: seq<Poll>, i: nat): nat
    requires i < |polls|
  {
    env.clock(Turns(env, cfg, t, polls[..i]).ticks + 1)
  }

  /** Over any number of turns the tick is the last reading, and time is credited up to the last one before the deadline. */
  lemma {:induction false} TurnsCredit(env: Env, cfg: Config, t: Traffic, polls: seq<Poll>)
    requires t.log.creditedUntil == cfg.connectedMs
    ensures var after := Turns(env, cfg, t, polls);
            && (polls != [] ==> after.lastTick == Reading(env, cfg, t, polls, |polls| - 1))
            && after.log.creditedUntil == LastBefore(env, cfg, t, polls)
  {
    hide Turn;
    if polls != [] {
      var front := polls[..|polls| - 1];
      TurnsCredit(env, cfg, t, front);
      TurnKeepsTime(env, cfg, Turns(env, cfg, t, front), polls[|polls| - 1]);
      LastBeforeOfMore(env, cfg, t, front, polls[|polls| - 1]);
      assert polls == front + [polls[|polls| - 1]];
    }
  }

  /** The last reading before the deadline, or the time of connecting if there was none. */
  function LastBefore(env: Env, cfg: Config, t: Traffic, polls: seq<Poll>): nat {
    if polls == [] then cfg.connectedMs
    else if Reading(env, cfg, t, polls, |polls| - 1) < cfg.endMs then Reading(env, cfg, t, polls, |polls| - 1)
    else LastBefore(env, cfg, t, polls[..|polls| - 1])
  }

  lemma LastBeforeOfMore(env: Env, cfg: Config, t: Traffic, polls: seq<Poll>, poll: Poll)
    ensures var reading := env.clock(Turns(env, cfg, t, polls).ticks + 1);
            LastBefore(env, cfg, t, polls + [poll])
              == if reading < cfg.endMs then reading else LastBefore(env, cfg, t, polls)
  {
    hide Turns;
    assert (polls + [poll])[..|polls|] == polls;
  }

  /**
   The whole account of credit: what is in hand plus what was spent is the rate times
   the time from connecting to the last tick before the deadline.
   */
  lemma CreditIsExactlyEarned(env: Env, cfg: Config, t: Traffic, polls: seq<Poll>)
    requires Monotone(env) && Begins(env, cfg, t)
    requires forall i :: 0 <= i < |polls| ==> !Turns(env, cfg, t, polls[..i]).halted
    ensures var after := Turns(env, cfg, t, polls);
            after.credit + after.sent as real
              == cfg.rate as real * (LastBefore(env, cfg, t, polls) - cfg.connectedMs) as real / 1000.0
    ensures Turns(env, cfg, t, polls).credit >= 0.0
  {
    hide Turns, LastBefore, Listed, Conserved, OnTime, Fair, Funded;
    TurnsInv(env, cfg, t, polls);
    TurnsCredit(env, cfg, t, polls);
    FundedMeans(cfg, Turns(env, cfg, t, polls));
  }

  lemma FundedMeans(cfg: Config, t: Traffic)
    requires Funded(cfg, t)
    ensures t.credit + t.sent as real == cfg.rate as real * (t.log.creditedUntil - cfg.connectedMs) as real / 1000.0
    ensures t.credit >= 0.0
  {
  }

  /**
   The sending loop ends only for want of credit, of clients, of time, because the
   client under the cursor is not ready, or after a failed attempt; every earlier
   attempt went, and nothing is attempted after the deadline.
   */
  lemma {:induction false} SendLoopStops(env: Env, t: Traffic, endMs: nat, currentMs: nat)
    ensures var after := SendLoop(env, t, endMs, currentMs);
            && t.attempts <= after.attempts && after.order == t.order
            && (currentMs >= endMs ==> after == t)
            && (|| after.credit < 1.0 || after.order == [] || currentMs >= endMs || !ChosenIsReady(after)
                || (after.attempts > t.attempts && !env.send(after.attempts - 1).Sent?))
            && (forall k :: t.attempts <= k < after.attempts - 1 ==> env.send(k).Sent?)
            && after.sent - t.sent
                 == after.attempts - t.attempts
                    - (if after.attempts > t.attempts && !env.send(after.attempts - 1).Sent? then 1 else 0)
    decreases if t.credit >= 1.0 then t.credit.Floor else 0
  {
    if MaySend(t, endMs, currentMs) && ChosenIsReady(t) {
      var tried := Attempt(env, t);
      AttemptAccount(env, t);
      if tried.sent != t.sent {
        hide Attempt, ChosenIsReady;
        SendLoopStops(env, tried, endMs, currentMs);
      }
    }
  }

  lemma AttemptAccount(env: Env, t: Traffic)
    requires t.order != [] && ChosenIsReady(t)
    ensures var after := Attempt(env, t);
            && after.attempts == t.attempts + 1 && after.order == t.order
            && after.sent == t.sent + (if env.send(t.attempts).Sent? then 1 else 0)
            && after.credit == t.credit - (if env.send(t.attempts).Sent? then 1.0 else 0.0)
  {
  }

  /** A turn without reports sends all that is due: it leaves less than one credit, or one of the reasons to stop holds. */
  lemma QuietTurnSendsWhatIsDue(env: Env, cfg: Config, t: Traffic)
    ensures var after := Turn(env, cfg, t, Interrupted);
            || after.credit < 1.0 || after.order == [] || cfg.endMs <= env.clock(t.ticks + 1) || !ChosenIsReady(after)
            || (after.attempts > t.attempts && !env.send(after.attempts - 1).Sent?)
  {
    hide SendLoop;
    var currentMs := env.clock(t.ticks + 1);
    SendLoopStops(env, Accrue(cfg, t.(ticks := t.ticks + 2), currentMs), cfg.endMs, currentMs);
  }

  // ---- what a report does ----

  /** Whether a report ends the client's connection. */
  predicate EndsClient(c: ClientState, event: PollEvent) {
    event.failed || (c.phase == WaitingAck && event.readable && ReceiveAck(c, event.chunks, event.end).Broken?)
  }

  /** Whether a report carries the client's answer. */
  predicate AnswersClient(c: ClientState, event: PollEvent) {
    !event.failed && c.phase == WaitingAck && event.readable && ReceiveAck(c, event.chunks, event.end).GotAck?
  }

  /**
   A report about a client: it is gone exactly if it failed or broke, and then the
   error is counted; its answer, if there is one, makes it ready and adds one
   latency; no other client is touched.
   */
  lemma PollDecides(env: Env, t: Traffic, event: PollEvent)
    requires Listed(t) && event.fd in t.clients
    ensures var after := HandlePoll(env, t, event); var c := t.clients[event.fd];
            && (event.fd in after.clients <==> !EndsClient(c, event))
            && (event.fd in after.order <==> !EndsClient(c, event))
            && after.errors == t.errors + (if EndsClient(c, event) then 1 else 0)
            && |after.latencies| == |t.latencies| + (if AnswersClient(c, event) then 1 else 0)
            && (AnswersClient(c, event) ==> after.clients[event.fd].phase == Ready)
            && (!AnswersClient(c, event) && !EndsClient(c, event) ==> after.clients[event.fd].phase == c.phase)
            && (forall fd :: fd != event.fd ==> (fd in after.clients <==> fd in t.clients))
            && (forall fd :: fd in t.clients && fd != event.fd ==> after.clients[fd] == t.clients[fd])
  {
    hide ReceiveAck, Without;
    WithoutKeepsOthers(t.order, event.fd);
    ReceiveAckKeepsClient(t.clients[event.fd], event.chunks, event.end);
  }

  lemma PollOfStranger(env: Env, t: Traffic, event: PollEvent)
    requires event.fd !in t.clients
    ensures HandlePoll(env, t, event) == t
  {
  }

  lemma PollListed(env: Env, t: Traffic, event: PollEvent)
    requires Listed(t)
    ensures Listed(HandlePoll(env, t, event))
  {
    hide ReceiveAck, Without;
    var fd := event.fd;
    if fd in t.clients {
      ListedWithout(t, fd);
      var r := ReceiveAck(t.clients[fd], event.chunks, event.end);
      ListedWithout(t.(clients := t.clients[fd := r.client]), fd);
    }
  }

  /** At most one report per descriptor, as epoll gives them. */
  predicate DistinctReports(events: seq<PollEvent>) {
    forall i, j :: 0 <= i < j < |events| ==> events[i].fd != events[j].fd
  }

  predicate Reported(events: seq<PollEvent>, fd: int) {
    exists i :: 0 <= i < |events| && events[i].fd == fd
  }

  lemma {:induction false} UnreportedIsUntouched(env: Env, t: Traffic, events: seq<PollEvent>, fd: int)
    requires Listed(t) && !Reported(events, fd)
    ensures var after := HandlePolls(env, t, events);
            && Listed(after)
            && (fd in after.clients <==> fd in t.clients)
            && (fd in t.clients ==> after.clients[fd] == t.clients[fd])
  {
    hide HandlePoll, Listed;
    if events != [] {
      var front, event := events[..|events| - 1], events[|events| - 1];
      assert event.fd != fd;
      forall i | 0 <= i < |front| ensures front[i].fd != fd {
        assert events[i].fd != fd;
      }
      UnreportedIsUntouched(env, t, front, fd);
      OnePollMore(env, HandlePolls(env, t, front), event, fd);
    }
  }

  lemma OnePollMore(env: Env, t: Traffic, event: PollEvent, fd: int)
    requires Listed(t) && event.fd != fd
    ensures var after := HandlePoll(env, t, event);
            && Listed(after)
            && (fd in after.clients <==> fd in t.clients)
            && (fd in t.clients ==> after.clients[fd] == t.clients[fd])
  {
    PollListed(env, t, event);
    if event.fd in t.clients {
      PollDecides(env, t, event);
    } else {
      PollOfStranger(env, t, event);
    }
    hide HandlePoll;
  }

  /** In one wait, each client meets its own report and nothing else: it is gone or ready by that report alone. */
  lemma {:induction false} EveryReportIsHandled(env: Env, t: Traffic, events: seq<PollEvent>, i: nat)
    requires Listed(t) && DistinctReports(events) && i < |events| && events[i].fd in t.clients
    ensures var after := HandlePolls(env, t, events); var fd := events[i].fd; var c := t.clients[fd];
            && Listed(after)
            && (fd in after.clients <==> !EndsClient(c, events[i]))
            && (AnswersClient(c, events[i]) ==> after.clients[fd].phase == Ready)
  {
    hide HandlePoll, Listed, EndsClient, AnswersClient;
    var front, last := events[..|events| - 1], events[|events| - 1];
    var before := HandlePolls(env, t, front);
    if i == |events| - 1 {
      UnreportedIsUntouched(env, t, front, last.fd);
      PollDecides(env, before, last);
      PollListed(env, before, last);
      AnswerDoesNotEnd(t.clients[last.fd], last);
    } else {
      assert front[i] == events[i];
      EveryReportIsHandled(env, t, front, i);
      OnePollMore(env, before, last, events[i].fd);
      AnswerDoesNotEnd(t.clients[events[i].fd], events[i]);
    }
  }

  lemma AnswerDoesNotEnd(c: ClientState, event: PollEvent)
    ensures !(AnswersClient(c, event) && EndsClient(c, event))
  {
    hide ReceiveAck;
  }

  /** The turn hands every report to its client. */
  lemma TurnHandlesEveryReport(env: Env, cfg: Config, t: Traffic, events: seq<PollEvent>, i: nat)
    requires Monotone(env) && ValidConfig(cfg) && TrafficInv(env, cfg, t)
    requires DistinctReports(events) && i < |events|
    requires var sentOut := Turn(env, cfg, t, Interrupted); !sentOut.halted && events[i].fd in sentOut.clients
    ensures var sentOut, after := Turn(env, cfg, t, Interrupted), Turn(env, cfg, t, Events(events));
            var fd := events[i].fd;
            && (fd in after.clients <==> !EndsClient(sentOut.clients[fd], events[i]))
            && (AnswersClient(sentOut.clients[fd], events[i]) ==> after.clients[fd].phase == Ready)
  {
    TurnInv(env, cfg, t, Interrupted);
    hide SendLoop, HandlePolls, EndsClient, AnswersClient, Listed, Conserved, Funded, OnTime, Fair;
    EveryReportIsHandled(env, Turn(env, cfg, t, Interrupted), events, i);
  }

  // ---- errors ----

  lemma {:induction false} PollsCountErrors(env: Env, t: Traffic, events: seq<PollEvent>)
    requires Listed(t)
    ensures var after := HandlePolls(env, t, events);
            && Listed(after)
            && after.errors - t.errors == after.log.closed - t.log.closed == |t.clients| - |after.clients|
  {
    hide HandlePoll, Listed;
    if events != [] {
      var before := HandlePolls(env, t, events[..|events| - 1]);
      PollsCountErrors(env, t, events[..|events| - 1]);
      PollListed(env, before, events[|events| - 1]);
      PollCountsErrors(env, before, events[|events| - 1]);
    }
  }

  lemma PollCountsErrors(env: Env, t: Traffic, event: PollEvent)
    ensures var after := HandlePoll(env, t, event);
            after.errors - t.errors == after.log.closed - t.log.closed == |t.clients| - |after.clients|
  {
    hide ReceiveAck, Without;
    var fd := event.fd;
    if fd in t.clients {
      var r := ReceiveAck(t.clients[fd], event.chunks, event.end);
      assert t.clients[fd := r.client].Keys == t.clients.Keys;
      assert (t.clients - {fd}).Keys == t.clients.Keys - {fd};
      assert (t.clients[fd := r.client] - {fd}).Keys == t.clients.Keys - {fd};
    }
  }

  /** In the traffic phase the errors counted are the clients closed, which are the clients missing from the table. */
  lemma {:induction false} ErrorsAreClosedClients(env: Env, cfg: Config, t: Traffic, polls: seq<Poll>)
    requires Monotone(env) && ValidConfig(cfg) && TrafficInv(env, cfg, t)
    requires forall i :: 0 <= i < |polls| ==> !Turns(env, cfg, t, polls[..i]).halted
    ensures InvOrHalted(env, cfg, Turns(env, cfg, t, polls))
    ensures var after := Turns(env, cfg, t, polls);
            after.errors - t.errors == after.log.closed - t.log.closed == |t.clients| - |after.clients|
  {
    hide Turn, Listed, Conserved, Funded, OnTime, Fair;
    if polls != [] {
      var front := polls[..|polls| - 1];
      forall i | 0 <= i < |front| ensures !Turns(env, cfg, t, front[..i]).halted {
        assert front[..i] == polls[..i];
      }
      ErrorsAreClosedClients(env, cfg, t, front);
      assert polls[..|front|] == front;
      TurnInv(env, cfg, Turns(env, cfg, t, front), polls[|front|]);
      TurnCountsErrors(env, cfg, Turns(env, cfg, t, front), polls[|front|]);
    }
  }

  lemma TurnCountsErrors(env: Env, cfg: Config, t: Traffic, poll: Poll)
    requires Monotone(env) && ValidConfig(cfg) && TrafficInv(env, cfg, t)
    ensures var after := Turn(env, cfg, t, poll);
            after.errors - t.errors == after.log.closed - t.log.closed == |t.clients| - |after.clients|
  {
    hide SendLoop, HandlePolls, Listed, Conserved, Funded, OnTime, Fair;
    var currentMs := env.clock(t.ticks + 1);
    var accrued := Accrue(cfg, t.(ticks := t.ticks + 2), currentMs);
    AccrueInv(env, cfg, t);
    SendLoopInv(env, cfg, accrued, currentMs);
    SendLoopKeepsTime(env, accrued, cfg.endMs, currentMs);
    var sentOut := SendLoop(env, accrued, cfg.endMs, currentMs);
    assert |sentOut.clients| == |sentOut.clients.Keys| == |t.clients.Keys| == |t.clients|;
    if !sentOut.halted && poll.Events? {
      PollsCountErrors(env, sentOut, poll.events);
    }
  }

  // ---- what follows ----

  /**
   The drain loop exits exactly when the deadline has passed, nobody is waiting and
   no waiting client was ever closed.
   */
  lemma ExitsExactlyWhenDrained(env: Env, cfg: Config, t: Traffic)
    requires TrafficInv(env, cfg, t)
    ensures !Continues(env, t, cfg.endMs)
       <==> cfg.endMs <= env.clock(t.ticks) && Waiting(t.clients) == {} && t.log.lost == 0
  {
    assert |Waiting(t.clients)| == 0 <==> Waiting(t.clients) == {};
  }

  /** A latency is the time since the client's STATUS was stamped: the subtraction of clock readings never wraps. */
  lemma LatencyIsElapsedTime(env: Env, cfg: Config, t: Traffic, event: PollEvent)
    requires Monotone(env) && TrafficInv(env, cfg, t)
    requires event.fd in t.clients && |HandlePoll(env, t, event).latencies| > |t.latencies|
    ensures var latencies := HandlePoll(env, t, event).latencies; var client := t.clients[event.fd];
            && latencies[..|latencies| - 1] == t.latencies
            && client.phase == WaitingAck && client.sentMs <= env.clock(t.ticks)
            && latencies[|latencies| - 1] == env.clock(t.ticks) - client.sentMs
  {
    hide ReceiveAck, Listed, Conserved, Funded, Fair;
    ReceiveAckKeepsClient(t.clients[event.fd], event.chunks, event.end);
  }

  /** No more answers than messages, in every reachable state. */
  lemma AckedNeverExceedsSent(env: Env, cfg: Config, t: Traffic)
    requires InvOrHalted(env, cfg, t)
    ensures |t.latencies| <= t.sent
  {
  }

  /** Sent never exceeds the rate times the time since connecting, and stays strictly below the whole budget. */
  lemma SentWithinBudget(env: Env, cfg: Config, t: Traffic)
    requires ValidConfig(cfg) && InvOrHalted(env, cfg, t)
    ensures t.sent * 1000 <= cfg.rate * (t.lastTick - cfg.connectedMs)
    ensures t.sent * 1000 < cfg.rate * (cfg.endMs - cfg.connectedMs)
  {
    FundedIsWithinBudget(cfg, t);
  }

  lemma FundedIsWithinBudget(cfg: Config, t: Traffic)
    requires ValidConfig(cfg) && Funded(cfg, t)
    ensures t.sent * 1000 <= cfg.rate * (t.lastTick - cfg.connectedMs)
    ensures t.sent * 1000 < cfg.rate * (cfg.endMs - cfg.connectedMs)
  {
    var earned: nat := t.log.creditedUntil - cfg.connectedMs;
    SentWithinEarned(cfg.rate, earned, t.sent, t.credit);
    ScaledInt(cfg.rate, earned, t.lastTick - cfg.connectedMs);
    ScaledInt(cfg.rate, earned, cfg.endMs - cfg.connectedMs);
  }

  lemma SentWithinEarned(rate: nat, earned: nat, sent: nat, credit: real)
    requires credit >= 0.0 && credit + sent as real == rate as real * earned as real / 1000.0
    ensures sent * 1000 <= rate * earned
  {
    assert (rate * earned) as real == rate as real * earned as real;
    assert (sent * 1000) as real <= (rate * earned) as real;
  }

  lemma ScaledInt(rate: nat, a: nat, b: nat)
    requires rate > 0 && a <= b
    ensures rate * a <= rate * b && (a < b ==> rate * a < rate * b)
  {
  }

  /**
   Round-robin fairness: while no client has been closed, any two clients have sent
   numbers of messages that differ by at most one, and each sequence number is the
   number of its successful sends.
   */
  lemma RoundRobinIsFair(env: Env, cfg: Config, t: Traffic, fd: int, gd: int)
    requires TrafficInv(env, cfg, t) && t.log.closed == 0 && fd in t.clients && gd in t.clients
    ensures fd in t.log.sends && gd in t.log.sends
    ensures t.clients[fd].sequence == Wrap(t.log.sends[fd])
    ensures t.log.sends[fd] <= t.log.sends[gd] + 1
  {
    hide Share;
    var i :| 0 <= i < |t.order| && t.order[i] == fd;
    var j :| 0 <= j < |t.order| && t.order[j] == gd;
    SharesAreClose(t.next, |t.order|, i, j);
  }

  lemma SharesAreClose(next: nat, n: nat, i: nat, j: nat)
    requires n > 0
    ensures Share(next, n, i) <= Share(next, n, j) + 1
  {
  }

  /** A lost answer is never made up for: from then on the loop condition holds at every turn. */
  lemma {:induction false} LostAnswerNeverExits(env: Env, cfg: Config, t: Traffic, polls: seq<Poll>)
    requires Monotone(env) && ValidConfig(cfg) && TrafficInv(env, cfg, t) && t.log.lost > 0
    requires forall i :: 0 <= i <= |polls| ==> !Turns(env, cfg, t, polls[..i]).halted
    ensures Continues(env, Turns(env, cfg, t, polls), cfg.endMs)
  {
    TurnsKeepLoss(env, cfg, t, polls);
    ExitsExactlyWhenDrained(env, cfg, Turns(env, cfg, t, polls));
  }

  lemma {:induction false} TurnsKeepLoss(env: Env, cfg: Config, t: Traffic, polls: seq<Poll>)
    requires Monotone(env) && ValidConfig(cfg) && TrafficInv(env, cfg, t)
    requires forall i :: 0 <= i <= |polls| ==> !Turns(env, cfg, t, polls[..i]).halted
    ensures TrafficInv(env, cfg, Turns(env, cfg, t, polls))
    ensures t.log.lost <= Turns(env, cfg, t, polls).log.lost
  {
    hide Turn, Listed, Conserved, Funded, OnTime, Fair;
    if polls != [] {
      var front := polls[..|polls| - 1];
      forall i | 0 <= i <= |front| ensures !Turns(env, cfg, t, front[..i]).halted {
        assert front[..i] == polls[..i];
      }
      TurnsKeepLoss(env, cfg, t, front);
      assert polls[..|polls|] == polls;
      TurnInv(env, cfg, Turns(env, cfg, t, front), polls[|front|]);
      TurnKeepsLoss(env, cfg, Turns(env, cfg, t, front), polls[|front|]);
    }
  }

  lemma TurnKeepsLoss(env: Env, cfg: Config, t: Traffic, poll: Poll)
    ensures t.log.lost <= Turn(env, cfg, t, poll).log.lost
  {
    hide SendLoop, HandlePolls;
    var currentMs := env.clock(t.ticks + 1);
    var accrued := Accrue(cfg, t.(ticks := t.ticks + 2), currentMs);
    SendLoopKeepsLoss(env, accrued, cfg.endMs, currentMs);
    if poll.Events? {
      PollsKeepLoss(env, SendLoop(env, accrued, cfg.endMs, currentMs), poll.events);
    }
  }

  lemma {:induction false} SendLoopKeepsLoss(env: Env, t: Traffic, endMs: nat, currentMs: nat)
    ensures SendLoop(env, t, endMs, currentMs).log.lost == t.log.lost
    decreases if t.credit >= 1.0 then t.credit.Floor else 0
  {
    if MaySend(t, endMs, currentMs) && ChosenIsReady(t) {
      var tried := Attempt(env, t);
      if tried.sent != t.sent {
        SendLoopKeepsLoss(env, tried, endMs, currentMs);
      }
    }
  }

  lemma {:induction false} PollsKeepLoss(env: Env, t: Traffic, events: seq<PollEvent>)
    ensures t.log.lost <= HandlePolls(env, t, events).log.lost
  {
    if events != [] {
      PollsKeepLoss(env, t, events[..|events| - 1]);
    }
  }
}
