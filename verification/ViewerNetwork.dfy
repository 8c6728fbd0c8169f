/**
 The viewer's network worker: it frames the server's byte stream into lines and
 posts one signal per METRICS line or accepted STATUS line to the window.
 */
module ViewerNetwork {
  import opened Text
  import opened StatusCodec
  import Fields

  datatype Signal = StatusReceived(status: DeviceStatus) | MetricsReceived(line: string)

  const METRICS_TAG := "METRICS "

  /** What one complete line posts; anything unparsable is dropped. */
  function SignalsOf(line: string): seq<Signal> {
    if METRICS_TAG <= line then [MetricsReceived(line)]
    else
      match StatusOf(line)
      case Some(status) => [StatusReceived(status)]
      case None => []
  }

  lemma StatusLineIsNotMetrics(line: string)
    requires StatusOf(line).Some?
    ensures !(METRICS_TAG <= line)
  {
    hide Fields.Tokens, Fields.Fold;
    assert STATUS_PREFIX <= Fields.StripEol(line);
    assert line[0] == 'S';
  }

  /**
   A line is posted as a status exactly when it is accepted as that status, as
   metrics exactly when it starts with the word and a space, and never both.
   */
  lemma SignalsExactly(line: string, status: DeviceStatus)
    ensures SignalsOf(line) == [StatusReceived(status)] <==> StatusOf(line) == Some(status)
    ensures SignalsOf(line) == [MetricsReceived(line)] <==> exists text :: line == "METRICS " + text
    ensures |SignalsOf(line)| <= 1
    ensures SignalsOf(line) == [] <==> StatusOf(line).None? && !(exists text :: line == "METRICS " + text)
  {
    hide StatusOf;
    if StatusOf(line).Some? {
      StatusLineIsNotMetrics(line);
    }
    if METRICS_TAG <= line {
      assert line == "METRICS " + line[8..];
    }
    forall text | line == "METRICS " + text ensures METRICS_TAG <= line {
    }
  }

  function SignalsOfAll(lines: seq<string>): seq<Signal> {
    if lines == [] then [] else SignalsOfAll(lines[..|lines| - 1]) + SignalsOf(lines[|lines| - 1])
  }

  lemma {:induction false} SignalsAppend(a: seq<string>, b: seq<string>)
    ensures SignalsOfAll(a + b) == SignalsOfAll(a) + SignalsOfAll(b)
  {
    hide SignalsOf;
    if b == [] {
      assert a + b == a;
    } else {
      SignalsAppend(a, b[..|b| - 1]);
      assert (a + b)[..|a + b| - 1] == a + b[..|b| - 1];
    }
  }

  lemma SignalsSnoc(lines: seq<string>, line: string)
    ensures SignalsOfAll(lines + [line]) == SignalsOfAll(lines) + SignalsOf(line)
  {
    assert (lines + [line])[..|lines|] == lines;
  }

  /** What the socket reports: data, or the end of a connection. */
  datatype SocketEvent = ReadyRead(data: string) | Disconnected

  /** The bytes read in each connection so far, the current one last. */
  function Sessions(events: seq<SocketEvent>): (s: seq<string>)
    ensures s != []
  {
    if events == [] then [""]
    else
      var before := Sessions(events[..|events| - 1]);
      match events[|events| - 1]
      case ReadyRead(data) => before[|before| - 1 := before[|before| - 1] + data]
      case Disconnected => before + [""]
  }

  /** The signals of a sequence of connections: each one framed on its own, from its whole stream. */
  function SignalsOfSessions(sessions: seq<string>): seq<Signal> {
    if sessions == [] then []
    else SignalsOfSessions(sessions[..|sessions| - 1]) + SignalsOfAll(Lines(sessions[|sessions| - 1]))
  }

  lemma MoreData(sessions: seq<string>, data: string)
    requires sessions != []
    ensures var last := sessions[|sessions| - 1]; var more := sessions[|sessions| - 1 := last + data];
            && SignalsOfSessions(more) == SignalsOfSessions(sessions) + SignalsOfAll(Lines(Rest(last) + data))
            && Rest(last + data) == Rest(Rest(last) + data)
  {
    hide Lines, Rest, SignalsOfAll;
    var n := |sessions| - 1;
    var last := sessions[n];
    LinesOfChunks(last, data);
    SignalsAppend(Lines(last), Lines(Rest(last) + data));
    assert sessions[n := last + data][..n] == sessions[..n];
    assert SignalsOfSessions(sessions[..n]) + (SignalsOfAll(Lines(last)) + SignalsOfAll(Lines(Rest(last) + data)))
        == (SignalsOfSessions(sessions[..n]) + SignalsOfAll(Lines(last))) + SignalsOfAll(Lines(Rest(last) + data));
  }

  class NetworkWorker {
    var receiveBuffer: string
    var posted: seq<Signal>   // queued for the window's thread, oldest first

    constructor ()
      ensures receiveBuffer == "" && posted == []
    {
      receiveBuffer, posted := "", [];
    }

    /** The loop that takes complete lines off the buffer. */
    method ConsumeStatusLines()
      modifies this
      ensures receiveBuffer == Rest(old(receiveBuffer))
      ensures posted == old(posted) + SignalsOfAll(Lines(old(receiveBuffer)))
    {
      hide Lines, Rest, StatusOf, SignalsOfAll;
      ghost var taken: seq<string> := [];
      assert SignalsOfAll([]) == [] by { NoSignals(); }
      while true
        invariant taken + Lines(receiveBuffer) == Lines(old(receiveBuffer))
        invariant Rest(receiveBuffer) == Rest(old(receiveBuffer))
        invariant posted == old(posted) + SignalsOfAll(taken)
        decreases |receiveBuffer|
      {
        var newline := Find(receiveBuffer, '\n');
        if newline == |receiveBuffer| {
          NoLines(receiveBuffer);
          assert taken == Lines(old(receiveBuffer));
          return;
        }
        var line := receiveBuffer[..newline + 1];
        LinesOfLineThen(line, receiveBuffer[newline + 1..]);
        assert line + receiveBuffer[newline + 1..] == receiveBuffer;
        SignalsSnoc(taken, line);
        taken := taken + [line];
        receiveBuffer := receiveBuffer[newline + 1..];
        if METRICS_TAG <= line {
          posted := posted + [MetricsReceived(line)];
          continue;
        }
        var status := ParseStatusLine(line);
        if status.Some? {
          posted := posted + [StatusReceived(status.value)];
        }
      }
    }

    method OnReadyRead(data: string)
      modifies this
      ensures receiveBuffer == Rest(old(receiveBuffer) + data)
      ensures posted == old(posted) + SignalsOfAll(Lines(old(receiveBuffer) + data))
    {
      receiveBuffer := receiveBuffer + data;
      ConsumeStatusLines();
    }

    method OnDisconnected()
      modifies this
      ensures receiveBuffer == "" && posted == old(posted)
    {
      receiveBuffer := "";
    }

    /**
     Whatever the socket reports, in pieces of any size: the signals posted are those
     of the connections' whole streams, and half a line never leaks into the next one.
     */
    method Run(events: seq<SocketEvent>)
      requires receiveBuffer == "" && posted == []
      modifies this
      ensures posted == SignalsOfSessions(Sessions(events))
      ensures receiveBuffer == Rest(Sessions(events)[|Sessions(events)| - 1])
    {
      hide Lines, Rest, SignalsOfAll, SignalsOfSessions;
      NoSession();
      assert events[..0] == [];
      for i := 0 to |events|
        invariant posted == SignalsOfSessions(Sessions(events[..i]))
        invariant receiveBuffer == Rest(Sessions(events[..i])[|Sessions(events[..i])| - 1])
      {
        ghost var sessions := Sessions(events[..i]);
        assert events[..i + 1][..i] == events[..i];
        match events[i]
        case ReadyRead(data) =>
          MoreData(sessions, data);
          OnReadyRead(data);
        case Disconnected =>
          NewSession(sessions);
          OnDisconnected();
      }
      assert events[..|events|] == events;
    }
  }

  lemma NoSignals()
    ensures SignalsOfAll([]) == []
  {
  }

  lemma NoSession()
    ensures SignalsOfSessions([""]) == [] && Rest("") == ""
  {
    NoLines("");
    assert SignalsOfSessions([""][..0]) == [];
  }

  lemma NewSession(sessions: seq<string>)
    ensures SignalsOfSessions(sessions + [""]) == SignalsOfSessions(sessions) && Rest("") == ""
  {
    NoLines("");
    NoSignals();
    assert (sessions + [""])[..|sessions|] == sessions;
  }
}
