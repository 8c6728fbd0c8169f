/**
 STATUS lines: the record, the parser as a fold over tokens, the index-based
 loop that refines it, and what the result of a parse depends on.
 */
module StatusCodec {
  import opened Text
  import opened Decimal
  import opened Fields

  datatype DeviceStatus = DeviceStatus(
    deviceId: string,
    state: string,
    battery: i32,
    x: real,
    y: real,
    z: real,
    sequence: u64,
    sentMs: u64,
    ackRequested: bool)

  const EMPTY_STATUS := DeviceStatus("", "", 0, 0.0, 0.0, 0.0, 0, 0, false)

  const STATUS_PREFIX := "STATUS"

  function ParseBool(value: string): Option<bool> {
    if value == "1" || value == "true" then Some(true)
    else if value == "0" || value == "false" then Some(false)
    else None
  }

  function Assign(status: DeviceStatus, key: string, value: string): Option<DeviceStatus> {
    if key == "device_id" then Some(status.(deviceId := value))
    else if key == "state" then Some(status.(state := value))
    else if key == "battery" then
      match ParseI32(value) case Some(v) => Some(status.(battery := v)) case None => None
    else if key == "x" then
      match ParseDecimal(value) case Some(v) => Some(status.(x := v)) case None => None
    else if key == "y" then
      match ParseDecimal(value) case Some(v) => Some(status.(y := v)) case None => None
    else if key == "z" then
      match ParseDecimal(value) case Some(v) => Some(status.(z := v)) case None => None
    else if key == "seq" then
      match ParseU64(value) case Some(v) => Some(status.(sequence := v)) case None => None
    else if key == "sent_ms" then
      match ParseU64(value) case Some(v) => Some(status.(sentMs := v)) case None => None
    else if key == "ack" then
      match ParseBool(value) case Some(v) => Some(status.(ackRequested := v)) case None => None
    else Some(status)
  }

  const ASSIGN: (DeviceStatus, string, string) -> Option<DeviceStatus> :=
    (status, key, value) => Assign(status, key, value)

  predicate Complete(status: DeviceStatus) { status.deviceId != "" && status.state != "" }

  /** The status a line stands for: a fold of the field assignments over its tokens. */
  function StatusOf(line: string): Option<DeviceStatus> {
    var body := StripEol(line);
    if !HasTag(STATUS_PREFIX, body) then None
    else
      Checked(Fold(ASSIGN, Tokens(body[|STATUS_PREFIX|..]), EMPTY_STATUS))
  }

  function Checked(parsed: Option<DeviceStatus>): Option<DeviceStatus> {
    match parsed
    case Some(status) => if Complete(status) then parsed else None
    case None => None
  }

  /** The parser as written: a position moves over the line, token by token. */
  method ParseStatusLine(text: string) returns (r: Option<DeviceStatus>)
    ensures r == StatusOf(text)
  {
    var line := text;
    if line != "" && line[|line| - 1] == '\n' { line := line[..|line| - 1]; }
    if line != "" && line[|line| - 1] == '\r' { line := line[..|line| - 1]; }
    StrippedMeans(text, line);
    hide StatusOf, StripEol, HasTag, Remaining;
    if !(STATUS_PREFIX <= line) { return None; }
    if |line| > |STATUS_PREFIX| && line[|STATUS_PREFIX|] != ' ' { return None; }
    r := ParseFields(line);
    if r.Some? && (r.value.deviceId == "" || r.value.state == "") { return None; }
  }

  /** The loop over the fields after the tag. */
  method ParseFields(line: string) returns (r: Option<DeviceStatus>)
    requires |STATUS_PREFIX| <= |line|
    ensures r == Remaining(line, |STATUS_PREFIX|, EMPTY_STATUS)
  {
    hide Tokens, Fold, Assign, Find, Remaining;
    var status := EMPTY_STATUS;
    var position := |STATUS_PREFIX|;
    while position < |line|
      invariant position <= |line|
      invariant Remaining(line, position, status) == Remaining(line, |STATUS_PREFIX|, EMPTY_STATUS)
    {
      if line[position] == ' ' {
        AtSpace(line, position, status);
        position := position + 1;
        continue;
      }
      var tokenEnd := position + Find(line[position..], ' ');
      var token := line[position..tokenEnd];
      AtToken(line, position, tokenEnd, status);
      var equals := Find(token, '=');
      if equals == |token| || equals == 0 || equals + 1 == |token| { return None; }
      var updated := Assign(status, token[..equals], token[equals + 1..]);
      if updated.None? { return None; }
      status := updated.value;
      position := tokenEnd;
    }
    AtEnd(line, position, status);
    return Some(status);
  }

  lemma StrippedMeans(text: string, line: string)
    requires line == StripEol(text)
    ensures StatusOf(text)
         == if STATUS_PREFIX <= line && (|STATUS_PREFIX| < |line| ==> line[|STATUS_PREFIX|] == ' ')
            then Checked(Remaining(line, |STATUS_PREFIX|, EMPTY_STATUS))
            else None
  {
    hide Tokens, Fold, Assign, StripEol;
  }

  /** What the parsing loop still has to do: fold the fields from a position on. */
  ghost function Remaining(line: string, position: nat, status: DeviceStatus): Option<DeviceStatus>
    requires position <= |line|
  {
    Fold(ASSIGN, Tokens(line[position..]), status)
  }

  lemma AtSpace(line: string, position: nat, status: DeviceStatus)
    requires position < |line| && line[position] == ' '
    ensures Remaining(line, position, status) == Remaining(line, position + 1, status)
  {
    FoldAtSpace(ASSIGN, line, position, status);
  }

  lemma AtToken(line: string, position: nat, tokenEnd: nat, status: DeviceStatus)
    requires position < |line| && line[position] != ' ' && tokenEnd == position + Find(line[position..], ' ')
    ensures var token := line[position..tokenEnd]; var equals := Find(token, '=');
            Remaining(line, position, status)
              == if equals == |token| || equals == 0 || equals + 1 == |token| then None
                 else
                   match Assign(status, token[..equals], token[equals + 1..])
                   case None => None
                   case Some(next) => Remaining(line, tokenEnd, next)
  {
    hide Tokens, Fold, Assign, Find;
    FoldAtToken(ASSIGN, line, position, tokenEnd, status);
  }

  lemma AtEnd(line: string, position: nat, status: DeviceStatus)
    requires position == |line|
    ensures Remaining(line, position, status) == Some(status)
  {
    assert line[position..] == "";
  }

  // ---- which tokens are acceptable ----

  /** The values a key may have; any other key may have any value. */
  ghost predicate ValueAllowed(key: string, value: string) {
    match key
    case "battery" => exists n: i32 :: I32Text(value, n)
    case "x" => exists v :: DecimalText(value, v)
    case "y" => exists v :: DecimalText(value, v)
    case "z" => exists v :: DecimalText(value, v)
    case "seq" => U64Text(value)
    case "sent_ms" => U64Text(value)
    case "ack" => value in {"1", "true", "0", "false"}
    case _ => true
  }

  /** A key without equals sign, an equals sign, and a value that key may have; neither side empty. */
  ghost predicate TokenOk(token: string) {
    exists key, value ::
      token == key + "=" + value && key != "" && value != "" && Free(key, '=') && ValueAllowed(key, value)
  }

  lemma ReadableI32(value: string)
    ensures ParseI32(value).Some? <==> exists n: i32 :: I32Text(value, n)
  {
    hide ParseI32, I32Text;
    if ParseI32(value).Some? {
      I32Grammar(value, ParseI32(value).value);
    }
    forall n: i32 ensures I32Text(value, n) <==> ParseI32(value) == Some(n) {
      I32Grammar(value, n);
    }
  }

  lemma ReadableDecimal(value: string)
    ensures ParseDecimal(value).Some? <==> exists v :: DecimalText(value, v)
  {
    hide ParseDecimal, DecimalText;
    if ParseDecimal(value).Some? {
      DecimalGrammar(value, ParseDecimal(value).value);
    }
    forall v ensures DecimalText(value, v) <==> ParseDecimal(value) == Some(v) {
      DecimalGrammar(value, v);
    }
  }

  /** The words for true and false, and no others. */
  lemma BoolGrammar(value: string)
    ensures ParseBool(value) == Some(true) <==> value in {"1", "true"}
    ensures ParseBool(value) == Some(false) <==> value in {"0", "false"}
    ensures ParseBool(value).Some? <==> value in {"1", "true", "0", "false"}
  {
  }

  /** A field is assigned exactly when its key may have its value, whatever came before. */
  lemma AssignsAllowed(status: DeviceStatus, key: string, value: string)
    ensures Assign(status, key, value).Some? <==> ValueAllowed(key, value)
  {
    hide ParseI32, ParseDecimal, ParseU64, ParseBool, I32Text, DecimalText, U64Text;
    ReadableI32(value);
    ReadableDecimal(value);
    U64Grammar(value, 0);
    BoolGrammar(value);
  }

  lemma TokenOkParts(token: string)
    ensures TokenOk(token) <==> KeyValue(token).Some? && ValueAllowed(KeyValue(token).value.0, KeyValue(token).value.1)
  {
    hide ValueAllowed;
    var kv := KeyValue(token);
    if kv.Some? {
      assert token == kv.value.0 + "=" + kv.value.1;
    }
    if TokenOk(token) {
      var key, value :|
        token == key + "=" + value && key != "" && value != "" && Free(key, '=') && ValueAllowed(key, value);
      assert token[..|key|] == key && token[|key| + 1..] == value;
      FindUnique(token, '=', |key|);
    }
  }

  function FieldI32(tokens: seq<string>, key: string): i32 {
    var v := ParseI32(OrElse(LastValue(tokens, key), "0"));
    if v.Some? then v.value else 0
  }

  function FieldReal(tokens: seq<string>, key: string): real {
    var v := ParseDecimal(OrElse(LastValue(tokens, key), "0"));
    if v.Some? then v.value else 0.0
  }

  function FieldBool(tokens: seq<string>, key: string): bool {
    ParseBool(OrElse(LastValue(tokens, key), "0")) == Some(true)
  }

  /** Reference reading of a token list: every field has its last value, or its default. */
  function LastFields(tokens: seq<string>): DeviceStatus {
    DeviceStatus(
      OrElse(LastValue(tokens, "device_id"), ""),
      OrElse(LastValue(tokens, "state"), ""),
      FieldI32(tokens, "battery"),
      FieldReal(tokens, "x"),
      FieldReal(tokens, "y"),
      FieldReal(tokens, "z"),
      FieldU64(tokens, "seq"),
      FieldU64(tokens, "sent_ms"),
      FieldBool(tokens, "ack"))
  }

  ghost predicate AllOk(tokens: seq<string>) {
    forall i :: 0 <= i < |tokens| ==> TokenOk(tokens[i])
  }

  lemma ZeroText()
    ensures ParseI32("0") == Some(0) && ParseU64("0") == Some(0) && ParseDecimal("0") == Some(0.0)
  {
    assert ToString(0) == "0";
    I32RoundTrip(0);
    U64RoundTrip(0);
    DecimalRoundTrip(0);
  }

  lemma AssignIsLastWins(tokens: seq<string>, token: string)
    requires KeyValue(token).Some?
    requires Assign(LastFields(tokens), KeyValue(token).value.0, KeyValue(token).value.1).Some?
    ensures Assign(LastFields(tokens), KeyValue(token).value.0, KeyValue(token).value.1)
         == Some(LastFields(tokens + [token]))
  {
    hide LastValue, KeyValue, ParseI32, ParseDecimal, ParseU64, ValueAllowed, TokenOk;
    ZeroText();
    LastValueOfSnoc(tokens, token, "device_id");
    LastValueOfSnoc(tokens, token, "state");
    LastValueOfSnoc(tokens, token, "battery");
    LastValueOfSnoc(tokens, token, "x");
    LastValueOfSnoc(tokens, token, "y");
    LastValueOfSnoc(tokens, token, "z");
    LastValueOfSnoc(tokens, token, "seq");
    LastValueOfSnoc(tokens, token, "sent_ms");
    LastValueOfSnoc(tokens, token, "ack");
  }

  /**
   What the token fold computes, without mentioning the fold: it succeeds
   exactly when every token is acceptable on its own, and then each field is
   the last value given for its key.
   */
  lemma {:induction false} FoldIsLastFields(tokens: seq<string>)
    ensures Fold(ASSIGN, tokens, EMPTY_STATUS)
         == if AllOk(tokens) then Some(LastFields(tokens)) else None
  {
    if tokens == [] {
      ZeroText();
    } else {
      hide Fold, LastFields, TokenOk, Assign;
      var front, token := tokens[..|tokens| - 1], tokens[|tokens| - 1];
      assert tokens == front + [token];
      FoldIsLastFields(front);
      FoldAppend(ASSIGN, front, [token], EMPTY_STATUS);
      assert AllOk(tokens) <==> AllOk(front) && TokenOk(token);
      if AllOk(front) {
        FoldOne(LastFields(front), token);
        if TokenOk(token) {
          AssignIsLastWins(front, token);
        }
      }
    }
  }

  lemma FoldOne(status: DeviceStatus, token: string)
    ensures Fold(ASSIGN, [token], status)
         == match KeyValue(token)
            case Some(kv) => Assign(status, kv.0, kv.1)
            case None => None
    ensures Fold(ASSIGN, [token], status).Some? <==> TokenOk(token)
  {
    TokenOkParts(token);
    var kv := KeyValue(token);
    if kv.Some? {
      AssignsAllowed(status, kv.value.0, kv.value.1);
    }
    hide KeyValue, Assign, TokenOk, ValueAllowed;
    assert [token][1..] == [];
    assert forall t: DeviceStatus :: Fold(ASSIGN, [], t) == Some(t);
  }

  /** What an accepted line looks like: the tag, acceptable fields, a device and a state among them. */
  ghost predicate StatusLine(line: string, fields: string) {
    && StripEol(line) == "STATUS " + fields
    && AllOk(Tokens(fields))
    && LastValue(Tokens(fields), "device_id").Some? && LastValue(Tokens(fields), "state").Some?
  }

  /** Exactly such lines are accepted, each as its last fields. */
  lemma AcceptedExactly(line: string, status: DeviceStatus)
    ensures StatusOf(line) == Some(status)
       <==> exists fields :: StatusLine(line, fields) && status == LastFields(Tokens(fields))
  {
    hide Tokens, Fold, HasTag, StripEol, AllOk, LastFields;
    var body := StripEol(line);
    TaggedFields(STATUS_PREFIX, body);
    assert forall fields :: STATUS_PREFIX + " " + fields == "STATUS " + fields;
    forall fields | body == STATUS_PREFIX + " " + fields
      ensures StatusOf(line)
           == if StatusLine(line, fields) then Some(LastFields(Tokens(fields))) else None
    {
      var tokens := Tokens(fields);
      FoldIsLastFields(tokens);
      CompleteMeans(tokens);
    }
    if body == STATUS_PREFIX {
      BareTag();
      assert body[|STATUS_PREFIX|..] == "";
    }
  }

  lemma CompleteMeans(tokens: seq<string>)
    ensures Complete(LastFields(tokens))
       <==> LastValue(tokens, "device_id").Some? && LastValue(tokens, "state").Some?
  {
    hide LastValue, FieldI32, FieldReal, FieldU64, FieldBool;
    LastValueIsNotEmpty(tokens, "device_id");
    LastValueIsNotEmpty(tokens, "state");
  }

  lemma BareTag()
    ensures Checked(Fold(ASSIGN, Tokens(""), EMPTY_STATUS)) == None
    ensures forall fields :: STATUS_PREFIX != STATUS_PREFIX + " " + fields
  {
    assert Tokens("") == [];
    forall fields: string ensures STATUS_PREFIX != STATUS_PREFIX + " " + fields {
      assert |STATUS_PREFIX + " " + fields| > |STATUS_PREFIX|;
    }
  }

  const KNOWN_KEYS := {"device_id", "state", "battery", "x", "y", "z", "seq", "sent_ms", "ack"}

  /** The status is determined by acceptability and by the nine last values alone. */
  lemma ParseDependsOnLastValues(a: seq<string>, b: seq<string>)
    requires AllOk(a) <==> AllOk(b)
    requires forall key :: key in KNOWN_KEYS ==> LastValue(a, key) == LastValue(b, key)
    ensures Fold(ASSIGN, a, EMPTY_STATUS) == Fold(ASSIGN, b, EMPTY_STATUS)
  {
    hide LastValue, Fold, ParseI32, ParseU64, ParseDecimal, ParseBool, AllOk;
    FoldIsLastFields(a);
    FoldIsLastFields(b);
    assert forall key :: key in KNOWN_KEYS <==>
      key in {"device_id", "state", "battery", "x", "y", "z", "seq", "sent_ms", "ack"};
  }

  lemma {:induction false} LastValueOfAppend(a: seq<string>, b: seq<string>, key: string)
    ensures LastValue(a + b, key) == if LastValue(b, key).Some? then LastValue(b, key) else LastValue(a, key)
  {
    if b == [] {
      assert a + b == a;
    } else {
      var front, token := b[..|b| - 1], b[|b| - 1];
      LastValueOfAppend(a, front, key);
      LastValueOfSnoc(a + front, token, key);
      assert a + b == (a + front) + [token];
      assert b == front + [token];
    }
  }

  /** A well-formed field under an unknown key changes nothing, wherever it stands. */
  lemma UnknownFieldIsHarmless(a: seq<string>, token: string, b: seq<string>)
    requires KeyValue(token).Some? && KeyValue(token).value.0 !in KNOWN_KEYS
    ensures Fold(ASSIGN, a + [token] + b, EMPTY_STATUS) == Fold(ASSIGN, a + b, EMPTY_STATUS)
  {
    TokenOkParts(token);
    UnknownMayBeAnything(KeyValue(token).value.0, KeyValue(token).value.1);
    hide Fold, LastValue, TokenOk, KeyValue, ValueAllowed;
    forall key | key in KNOWN_KEYS
      ensures LastValue(a + [token] + b, key) == LastValue(a + b, key)
    {
      LastValueOfAppend(a + [token], b, key);
      LastValueOfSnoc(a, token, key);
      LastValueOfAppend(a, b, key);
    }
    InsertionKeepsAllOk(a, token, b);
    ParseDependsOnLastValues(a + [token] + b, a + b);
  }

  lemma UnknownMayBeAnything(key: string, value: string)
    requires key !in KNOWN_KEYS
    ensures ValueAllowed(key, value)
  {
  }

  lemma InsertionKeepsAllOk(a: seq<string>, token: string, b: seq<string>)
    requires TokenOk(token)
    ensures AllOk(a + [token] + b) <==> AllOk(a + b)
  {
    hide TokenOk;
    var long, short := a + [token] + b, a + b;
    if AllOk(long) {
      forall i | 0 <= i < |short| ensures TokenOk(short[i]) {
        assert short[i] == if i < |a| then long[i] else long[i + 1];
      }
    }
    if AllOk(short) {
      forall i | 0 <= i < |long| ensures TokenOk(long[i]) {
        assert long[i] == if i < |a| then short[i] else if i == |a| then token else short[i - 1];
      }
    }
  }

  predicate DistinctKeys(tokens: seq<string>) {
    forall i, j :: 0 <= i < j < |tokens| && KeyValue(tokens[i]).Some? && KeyValue(tokens[j]).Some?
      ==> KeyValue(tokens[i]).value.0 != KeyValue(tokens[j]).value.0
  }

  lemma {:induction false} LastValueWhenDistinct(tokens: seq<string>, token: string)
    requires DistinctKeys(tokens) && token in tokens && KeyValue(token).Some?
    ensures LastValue(tokens, KeyValue(token).value.0) == Some(KeyValue(token).value.1)
  {
    var front, last := tokens[..|tokens| - 1], tokens[|tokens| - 1];
    assert tokens == front + [last];
    if last != token {
      LastValueWhenDistinct(front, token);
    }
  }

  lemma {:induction false} LastValueIsThere(tokens: seq<string>, key: string) returns (token: string)
    requires LastValue(tokens, key).Some?
    ensures token in tokens && KeyValue(token) == Some((key, LastValue(tokens, key).value))
  {
    var front, last := tokens[..|tokens| - 1], tokens[|tokens| - 1];
    var kv := KeyValue(last);
    if kv.Some? && kv.value.0 == key {
      token := last;
    } else {
      token := LastValueIsThere(front, key);
    }
  }

  /** Reordering fields with distinct keys does not change the result. */
  lemma ReorderingIsHarmless(a: seq<string>, b: seq<string>)
    requires multiset(a) == multiset(b)
    requires DistinctKeys(a) && DistinctKeys(b)
    ensures Fold(ASSIGN, a, EMPTY_STATUS) == Fold(ASSIGN, b, EMPTY_STATUS)
  {
    hide Fold, LastValue, TokenOk, KeyValue, DistinctKeys;
    assert forall token :: token in a <==> token in multiset(a);
    assert forall token :: token in b <==> token in multiset(b);
    forall key | key in KNOWN_KEYS ensures LastValue(a, key) == LastValue(b, key) {
      if LastValue(a, key).Some? {
        var token := LastValueIsThere(a, key);
        LastValueWhenDistinct(b, token);
      } else if LastValue(b, key).Some? {
        var token := LastValueIsThere(b, key);
        LastValueWhenDistinct(a, token);
      }
    }
    assert AllOk(a) <==> (forall token :: token in a ==> TokenOk(token));
    assert AllOk(b) <==> (forall token :: token in b ==> TokenOk(token));
    ParseDependsOnLastValues(a, b);
  }

  /** LF and CRLF endings are the same line. */
  lemma LineEndingIsHarmless(s: string)
    requires s == "" || (s[|s| - 1] != '\n' && s[|s| - 1] != '\r')
    ensures StatusOf(s + "\n") == StatusOf(s) == StatusOf(s + "\r\n") == StatusOf(s + "\r")
  {
    hide Fold, Tokens, HasTag;
    StripEolOf(s);
    assert StripEol(s) == s;
  }

  lemma StripEolOf(s: string)
    requires s == "" || (s[|s| - 1] != '\n' && s[|s| - 1] != '\r')
    ensures StripEol(s + "\n") == s && StripEol(s + "\r") == s && StripEol(s + "\r\n") == s
  {
    assert (s + "\n")[..|s|] == s;
    assert (s + "\r")[..|s|] == s;
    assert (s + "\r\n")[..|s| + 1] == s + "\r";
  }

  lemma StripEolAfterSpace(front: string, s: string)
    requires front != "" && front[|front| - 1] == ' '
    ensures StripEol(front + s) == front + StripEol(s)
  {
    var t := front + s;
    if s == "" {
      assert t == front;
    } else {
      assert t[..|t| - 1] == front + s[..|s| - 1];
      var u := s[..|s| - 1];
      if s[|s| - 1] == '\n' && u != "" {
        assert (front + u)[..|front + u| - 1] == front + u[..|u| - 1];
      } else if s[|s| - 1] == '\n' {
        assert front + u == front;
      }
    }
  }

  /** Doubling a space between fields does not change the result. */
  lemma ExtraSpaceIsHarmless(a: string, b: string)
    requires STATUS_PREFIX <= a
    ensures StatusOf(a + " " + b) == StatusOf(a + "  " + b)
  {
    hide Fold, Tokens, StripEol;
    StripEolAfterSpace(a + " ", b);
    StripEolAfterSpace(a + "  ", b);
    var c := StripEol(b);
    var once, twice := a + " " + c, a + "  " + c;
    assert twice == a + " " + (" " + c);
    var fields := a[|STATUS_PREFIX|..];
    TokensSplit(fields, c);
    TokensSplit(fields, " " + c);
    TokensSplit("", c);
    assert "" + " " + c == " " + c;
    assert Tokens("") + Tokens(c) == Tokens(c) by { NoTokens(); }
    assert once[|STATUS_PREFIX|..] == fields + " " + c;
    assert twice[|STATUS_PREFIX|..] == fields + " " + (" " + c);
  }

  lemma NoTokens()
    ensures forall c: string :: Tokens("") + Tokens(c) == Tokens(c)
  {
    forall c: string ensures Tokens("") + Tokens(c) == Tokens(c) {
      assert Tokens("") == [];
    }
  }
}
