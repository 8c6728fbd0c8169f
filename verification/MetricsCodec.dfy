/**
 METRICS lines: the snapshot record, the printer, the parser, and their inversion.
 */
module MetricsCodec {
  import opened Text
  import opened Decimal
  import opened Fields

  datatype ServerMetrics = ServerMetrics(
    uptimeSec: u64,
    active: u64,
    accepted: u64,
    disconnected: u64,
    devices: u64,
    received: u64,
    ackSent: u64,
    parseErrors: u64,
    broadcastErrors: u64,
    msgPerSec: u64)

  const EMPTY_METRICS := ServerMetrics(0, 0, 0, 0, 0, 0, 0, 0, 0, 0)

  const METRICS_PREFIX := "METRICS"

  function Assign(m: ServerMetrics, key: string, value: string): Option<ServerMetrics> {
    var n := ParseU64(value);
    if key == "uptime_sec" then (if n.Some? then Some(m.(uptimeSec := n.value)) else None)
    else if key == "active" then (if n.Some? then Some(m.(active := n.value)) else None)
    else if key == "accepted" then (if n.Some? then Some(m.(accepted := n.value)) else None)
    else if key == "disconnected" then (if n.Some? then Some(m.(disconnected := n.value)) else None)
    else if key == "devices" then (if n.Some? then Some(m.(devices := n.value)) else None)
    else if key == "received" then (if n.Some? then Some(m.(received := n.value)) else None)
    else if key == "ack_sent" then (if n.Some? then Some(m.(ackSent := n.value)) else None)
    else if key == "parse_errors" then (if n.Some? then Some(m.(parseErrors := n.value)) else None)
    else if key == "broadcast_errors" then (if n.Some? then Some(m.(broadcastErrors := n.value)) else None)
    else if key == "msg_per_sec" then (if n.Some? then Some(m.(msgPerSec := n.value)) else None)
    else Some(m)
  }

  const ASSIGN: (ServerMetrics, string, string) -> Option<ServerMetrics> :=
    (m, key, value) => Assign(m, key, value)

  /** The snapshot a line stands for. */
  function MetricsOf(line: string): Option<ServerMetrics> {
    var body := StripEol(line);
    if HasTag(METRICS_PREFIX, body)
    then Fold(ASSIGN, Tokens(body[|METRICS_PREFIX|..]), EMPTY_METRICS)
    else None
  }

  /** The ten fields in the order they are printed. */
  function PairsOf(m: ServerMetrics): seq<(string, string)> {
    [ ("uptime_sec", ToString(m.uptimeSec)),
      ("active", ToString(m.active)),
      ("accepted", ToString(m.accepted)),
      ("disconnected", ToString(m.disconnected)),
      ("devices", ToString(m.devices)),
      ("received", ToString(m.received)),
      ("ack_sent", ToString(m.ackSent)),
      ("parse_errors", ToString(m.parseErrors)),
      ("broadcast_errors", ToString(m.broadcastErrors)),
      ("msg_per_sec", ToString(m.msgPerSec)) ]
  }

  function MetricsText(m: ServerMetrics): string {
    METRICS_PREFIX + Render(PairsOf(m)) + "\n"
  }

  method ParseMetricsLine(text: string) returns (r: Option<ServerMetrics>)
    ensures r == MetricsOf(text)
  {
    var line := text;
    if line != "" && line[|line| - 1] == '\n' { line := line[..|line| - 1]; }
    if line != "" && line[|line| - 1] == '\r' { line := line[..|line| - 1]; }
    StrippedMeans(text, line);
    hide MetricsOf, StripEol, HasTag, Remaining;
    if !(METRICS_PREFIX <= line) { return None; }
    if |line| > |METRICS_PREFIX| && line[|METRICS_PREFIX|] != ' ' { return None; }
    r := ParseFields(line);
  }

  /** The loop over the fields after the tag. */
  method ParseFields(line: string) returns (r: Option<ServerMetrics>)
    requires |METRICS_PREFIX| <= |line|
    ensures r == Remaining(line, |METRICS_PREFIX|, EMPTY_METRICS)
  {
    hide Tokens, Fold, Assign, Find, Remaining;
    var metrics := EMPTY_METRICS;
    var position := |METRICS_PREFIX|;
    while position < |line|
      invariant position <= |line|
      invariant Remaining(line, position, metrics) == Remaining(line, |METRICS_PREFIX|, EMPTY_METRICS)
    {
      if line[position] == ' ' {
        AtSpace(line, position, metrics);
        position := position + 1;
        continue;
      }
      var tokenEnd := position + Find(line[position..], ' ');
      var token := line[position..tokenEnd];
      AtToken(line, position, tokenEnd, metrics);
      var equals := Find(token, '=');
      if equals == |token| || equals == 0 || equals + 1 == |token| { return None; }
      var updated := Assign(metrics, token[..equals], token[equals + 1..]);
      if updated.None? { return None; }
      metrics := updated.value;
      position := tokenEnd;
    }
    AtEnd(line, position, metrics);
    return Some(metrics);
  }

  lemma StrippedMeans(text: string, line: string)
    requires line == StripEol(text)
    ensures MetricsOf(text)
         == if METRICS_PREFIX <= line && (|METRICS_PREFIX| < |line| ==> line[|METRICS_PREFIX|] == ' ')
            then Remaining(line, |METRICS_PREFIX|, EMPTY_METRICS)
            else None
  {
    hide Tokens, Fold, Assign, StripEol;
  }

  /** What the parsing loop still has to do: fold the fields from a position on. */
  ghost function Remaining(line: string, position: nat, metrics: ServerMetrics): Option<ServerMetrics>
    requires position <= |line|
  {
    Fold(ASSIGN, Tokens(line[position..]), metrics)
  }

  lemma AtSpace(line: string, position: nat, metrics: ServerMetrics)
    requires position < |line| && line[position] == ' '
    ensures Remaining(line, position, metrics) == Remaining(line, position + 1, metrics)
  {
    FoldAtSpace(ASSIGN, line, position, metrics);
  }

  lemma AtToken(line: string, position: nat, tokenEnd: nat, metrics: ServerMetrics)
    requires position < |line| && line[position] != ' ' && tokenEnd == position + Find(line[position..], ' ')
    ensures var token := line[position..tokenEnd]; var equals := Find(token, '=');
            Remaining(line, position, metrics)
              == if equals == |token| || equals == 0 || equals + 1 == |token| then None
                 else
                   match Assign(metrics, token[..equals], token[equals + 1..])
                   case None => None
                   case Some(next) => Remaining(line, tokenEnd, next)
  {
    hide Tokens, Fold, Assign, Find;
    FoldAtToken(ASSIGN, line, position, tokenEnd, metrics);
  }

  lemma AtEnd(line: string, position: nat, metrics: ServerMetrics)
    requires position == |line|
    ensures Remaining(line, position, metrics) == Some(metrics)
  {
    assert line[position..] == "";
  }

  /** The printer as written: the line grows by literals and numbers. */
  method FormatMetricsLine(m: ServerMetrics) returns (line: string)
    ensures line == MetricsText(m)
  {
    hide ToString, Render;
    line := "METRICS uptime_sec=" + ToString(m.uptimeSec);
    FirstField(METRICS_PREFIX, PairsOf(m));
    line := FormatConnections(m, line);
    line := FormatMessages(m, line);
    line := FormatErrorsAndRate(m, line);
    assert PairsOf(m)[..10] == PairsOf(m);
    line := line + "\n";
  }

  method FormatConnections(m: ServerMetrics, start: string) returns (line: string)
    requires start == METRICS_PREFIX + Render(PairsOf(m)[..1])
    ensures line == METRICS_PREFIX + Render(PairsOf(m)[..4])
  {
    hide ToString, Render;
    line := AppendField(METRICS_PREFIX, PairsOf(m), 1, start, " active=", ToString(m.active));
    line := AppendField(METRICS_PREFIX, PairsOf(m), 2, line, " accepted=", ToString(m.accepted));
    line := AppendField(METRICS_PREFIX, PairsOf(m), 3, line, " disconnected=", ToString(m.disconnected));
  }

  method FormatMessages(m: ServerMetrics, start: string) returns (line: string)
    requires start == METRICS_PREFIX + Render(PairsOf(m)[..4])
    ensures line == METRICS_PREFIX + Render(PairsOf(m)[..7])
  {
    hide ToString, Render;
    line := AppendField(METRICS_PREFIX, PairsOf(m), 4, start, " devices=", ToString(m.devices));
    line := AppendField(METRICS_PREFIX, PairsOf(m), 5, line, " received=", ToString(m.received));
    line := AppendField(METRICS_PREFIX, PairsOf(m), 6, line, " ack_sent=", ToString(m.ackSent));
  }

  method FormatErrorsAndRate(m: ServerMetrics, start: string) returns (line: string)
    requires start == METRICS_PREFIX + Render(PairsOf(m)[..7])
    ensures line == METRICS_PREFIX + Render(PairsOf(m)[..10])
  {
    hide ToString, Render;
    line := AppendField(METRICS_PREFIX, PairsOf(m), 7, start, " parse_errors=", ToString(m.parseErrors));
    line := AppendField(METRICS_PREFIX, PairsOf(m), 8, line, " broadcast_errors=", ToString(m.broadcastErrors));
    line := AppendField(METRICS_PREFIX, PairsOf(m), 9, line, " msg_per_sec=", ToString(m.msgPerSec));
  }

  /** `m` with only its first `k` printed fields set. */
  function Upto(m: ServerMetrics, k: nat): ServerMetrics {
    ServerMetrics(
      if k > 0 then m.uptimeSec else 0,
      if k > 1 then m.active else 0,
      if k > 2 then m.accepted else 0,
      if k > 3 then m.disconnected else 0,
      if k > 4 then m.devices else 0,
      if k > 5 then m.received else 0,
      if k > 6 then m.ackSent else 0,
      if k > 7 then m.parseErrors else 0,
      if k > 8 then m.broadcastErrors else 0,
      if k > 9 then m.msgPerSec else 0)
  }

  lemma AssignNext(m: ServerMetrics, k: nat)
    requires k < 10
    ensures Assign(Upto(m, k), PairsOf(m)[k].0, PairsOf(m)[k].1) == Some(Upto(m, k + 1))
  {
    hide ToString, ParseU64;
    var n: nat :=
      [m.uptimeSec, m.active, m.accepted, m.disconnected, m.devices,
       m.received, m.ackSent, m.parseErrors, m.broadcastErrors, m.msgPerSec][k];
    assert PairsOf(m)[k].1 == ToString(n);
    U64RoundTrip(n);
  }

  lemma KeysAreKeyText(m: ServerMetrics, k: nat)
    requires k < 10
    ensures KeyText(PairsOf(m)[k].0)
  {
    hide KeyText, ToString;
    ConnectionKeys();
    MessageKeys();
  }

  lemma ConnectionKeys()
    ensures KeyText("uptime_sec") && KeyText("active") && KeyText("accepted")
    ensures KeyText("disconnected") && KeyText("devices")
  {
  }

  lemma MessageKeys()
    ensures KeyText("received") && KeyText("ack_sent") && KeyText("parse_errors")
    ensures KeyText("broadcast_errors") && KeyText("msg_per_sec")
  {
  }

  lemma ValuesAreValueText(m: ServerMetrics, k: nat)
    requires k < 10
    ensures ValueText(PairsOf(m)[k].1)
  {
    hide ToString, Value;
    var n: nat :=
      [m.uptimeSec, m.active, m.accepted, m.disconnected, m.devices,
       m.received, m.ackSent, m.parseErrors, m.broadcastErrors, m.msgPerSec][k];
    assert PairsOf(m)[k].1 == ToString(n);
    PrintedValue(n);
  }

  lemma PairsArePrintable(m: ServerMetrics)
    ensures forall k :: 0 <= k < |PairsOf(m)| ==> Printable(PairsOf(m)[k])
  {
    forall k | 0 <= k < |PairsOf(m)| ensures Printable(PairsOf(m)[k]) {
      hide KeyText, ValueText;
      KeysAreKeyText(m, k);
      ValuesAreValueText(m, k);
    }
  }

  lemma {:induction false} FoldRemaining(m: ServerMetrics, k: nat)
    requires k <= 10
    ensures FoldPairs(ASSIGN, PairsOf(m)[k..], Upto(m, k)) == Some(m)
    decreases 10 - k
  {
    hide Assign, ToString;
    if k < 10 {
      AssignNext(m, k);
      FoldRemaining(m, k + 1);
      assert PairsOf(m)[k..][1..] == PairsOf(m)[k + 1..];
    }
  }

  /** Every snapshot is recovered exactly from its printed line. */
  lemma MetricsRoundTrip(m: ServerMetrics)
    ensures MetricsOf(MetricsText(m)) == Some(m)
  {
    hide Assign, Tokens, Fold, FoldPairs, Render, StripEol, HasTag, ToString, KeyText, ValueText;
    PairsArePrintable(m);
    assert Printable(PairsOf(m)[9]);
    RenderedBody(METRICS_PREFIX, PairsOf(m));
    FoldRendered(ASSIGN, PairsOf(m), EMPTY_METRICS);
    FoldRemaining(m, 0);
    assert PairsOf(m)[0..] == PairsOf(m);
    assert EMPTY_METRICS == Upto(m, 0);
  }

  /** Distinct snapshots print differently. */
  lemma MetricsTextIsInjective(a: ServerMetrics, b: ServerMetrics)
    requires MetricsText(a) == MetricsText(b)
    ensures a == b
  {
    MetricsRoundTrip(a);
    MetricsRoundTrip(b);
  }

  lemma MetricsTextIsLine(m: ServerMetrics)
    ensures IsLine(MetricsText(m))
  {
    hide PairsOf, Render, IsLine, KeyText, ValueText;
    PairsArePrintable(m);
    RenderedIsLine(METRICS_PREFIX, PairsOf(m));
  }

  // ---- which lines are accepted ----

  const KNOWN_KEYS := {"uptime_sec", "active", "accepted", "disconnected", "devices",
                       "received", "ack_sent", "parse_errors", "broadcast_errors", "msg_per_sec"}

  predicate ValueAllowed(key: string, value: string) { key in KNOWN_KEYS ==> U64Text(value) }

  /** A non-empty key and value around the first equals sign, the value unsigned below 2^64 if the key is known. */
  ghost predicate TokenOk(token: string) {
    exists key, value ::
      && token == key + "=" + value && key != "" && value != "" && Free(key, '=')
      && ValueAllowed(key, value)
  }

  /** Reference reading of a token list: every field has its last value, or zero. */
  function LastFields(tokens: seq<string>): ServerMetrics {
    ServerMetrics(
      FieldU64(tokens, "uptime_sec"),
      FieldU64(tokens, "active"),
      FieldU64(tokens, "accepted"),
      FieldU64(tokens, "disconnected"),
      FieldU64(tokens, "devices"),
      FieldU64(tokens, "received"),
      FieldU64(tokens, "ack_sent"),
      FieldU64(tokens, "parse_errors"),
      FieldU64(tokens, "broadcast_errors"),
      FieldU64(tokens, "msg_per_sec"))
  }

  lemma AssignsAllowed(m: ServerMetrics, key: string, value: string)
    ensures Assign(m, key, value).Some? <==> ValueAllowed(key, value)
  {
    hide ParseU64, U64Text;
    U64Grammar(value, 0);
  }

  lemma TokenOkParts(token: string)
    ensures TokenOk(token)
       <==> KeyValue(token).Some? && ValueAllowed(KeyValue(token).value.0, KeyValue(token).value.1)
  {
    hide ValueAllowed;
    var kv := KeyValue(token);
    if kv.Some? {
      assert token == kv.value.0 + "=" + kv.value.1;
    }
    if TokenOk(token) {
      var key, value :|
        && token == key + "=" + value && key != "" && value != "" && Free(key, '=')
        && ValueAllowed(key, value);
      assert token[..|key|] == key && token[|key| + 1..] == value;
      FindUnique(token, '=', |key|);
    }
  }

  lemma AssignIsLastWins(tokens: seq<string>, token: string)
    requires KeyValue(token).Some?
    requires Assign(LastFields(tokens), KeyValue(token).value.0, KeyValue(token).value.1).Some?
    ensures Assign(LastFields(tokens), KeyValue(token).value.0, KeyValue(token).value.1)
         == Some(LastFields(tokens + [token]))
  {
    hide LastValue, KeyValue, ParseU64;
    LastValueOfSnoc(tokens, token, "uptime_sec");
    LastValueOfSnoc(tokens, token, "active");
    LastValueOfSnoc(tokens, token, "accepted");
    LastValueOfSnoc(tokens, token, "disconnected");
    LastValueOfSnoc(tokens, token, "devices");
    LastValueOfSnoc(tokens, token, "received");
    LastValueOfSnoc(tokens, token, "ack_sent");
    LastValueOfSnoc(tokens, token, "parse_errors");
    LastValueOfSnoc(tokens, token, "broadcast_errors");
    LastValueOfSnoc(tokens, token, "msg_per_sec");
  }

  lemma FoldOne(m: ServerMetrics, token: string)
    ensures Fold(ASSIGN, [token], m)
         == match KeyValue(token)
            case Some(kv) => Assign(m, kv.0, kv.1)
            case None => None
    ensures Fold(ASSIGN, [token], m).Some? <==> TokenOk(token)
  {
    TokenOkParts(token);
    var kv := KeyValue(token);
    if kv.Some? {
      AssignsAllowed(m, kv.value.0, kv.value.1);
    }
    hide KeyValue, Assign, TokenOk;
    assert [token][1..] == [];
    assert forall n: ServerMetrics :: Fold(ASSIGN, [], n) == Some(n);
  }

  ghost predicate AllOk(tokens: seq<string>) {
    forall i :: 0 <= i < |tokens| ==> TokenOk(tokens[i])
  }

  /** The fold succeeds exactly on acceptable tokens, and then each field has its last value. */
  lemma {:induction false} FoldIsLastFields(tokens: seq<string>)
    ensures Fold(ASSIGN, tokens, EMPTY_METRICS)
         == if AllOk(tokens) then Some(LastFields(tokens)) else None
  {
    if tokens == [] {
      NoFields();
    } else {
      hide Fold, LastFields, TokenOk, Assign;
      var front, token := tokens[..|tokens| - 1], tokens[|tokens| - 1];
      assert tokens == front + [token];
      FoldIsLastFields(front);
      FoldAppend(ASSIGN, front, [token], EMPTY_METRICS);
      assert AllOk(tokens) <==> AllOk(front) && TokenOk(token);
      if AllOk(front) {
        FoldOne(LastFields(front), token);
        if TokenOk(token) {
          AssignIsLastWins(front, token);
        }
      }
    }
  }

  lemma NoFields()
    ensures LastFields([]) == EMPTY_METRICS
  {
    hide ParseU64;
    assert ToString(0) == "0";
    U64RoundTrip(0);
  }

  /** What an accepted line looks like: the tag, bare or followed by acceptable fields. */
  ghost predicate MetricsLine(line: string, fields: string) {
    && (StripEol(line) == "METRICS " + fields || (fields == "" && StripEol(line) == "METRICS"))
    && AllOk(Tokens(fields))
  }

  /** Exactly such lines are accepted, each as its last fields. */
  lemma AcceptedExactly(line: string, m: ServerMetrics)
    ensures MetricsOf(line) == Some(m)
       <==> exists fields :: MetricsLine(line, fields) && m == LastFields(Tokens(fields))
  {
    hide Tokens, Fold, HasTag, StripEol, AllOk, LastFields;
    var body := StripEol(line);
    TaggedFields(METRICS_PREFIX, body);
    assert forall fields :: METRICS_PREFIX + " " + fields == "METRICS " + fields;
    forall fields | body == METRICS_PREFIX + " " + fields || (fields == "" && body == METRICS_PREFIX)
      ensures MetricsOf(line) == if MetricsLine(line, fields) then Some(LastFields(Tokens(fields))) else None
    {
      FoldIsLastFields(Tokens(fields));
      assert body == METRICS_PREFIX ==> body[|METRICS_PREFIX|..] == "";
    }
    if body == METRICS_PREFIX {
      assert MetricsOf(line).Some? ==> MetricsLine(line, "");
    }
  }
}
