/**
 The `key=value` grammar shared by STATUS, METRICS and ACK lines: splitting at
 spaces, splitting a token at its first equals sign, and folding the fields
 into a record.
 */
module Fields {
  import opened Text
  import opened Decimal

  /** One trailing LF, then one trailing CR, are not part of the line. */
  function StripEol(line: string): string {
    var s := if line != "" && line[|line| - 1] == '\n' then line[..|line| - 1] else line;
    if s != "" && s[|s| - 1] == '\r' then s[..|s| - 1] else s
  }

  /** `body` is the tag alone, or the tag followed by a space. */
  predicate HasTag(tag: string, body: string) {
    tag <= body && (|tag| < |body| ==> body[|tag|] == ' ')
  }

  /** The non-empty runs between spaces. */
  function Tokens(s: string): seq<string>
    decreases |s|
  {
    if s == "" then []
    else if s[0] == ' ' then Tokens(s[1..])
    else
      var k := Find(s, ' ');
      [s[..k]] + Tokens(s[k..])
  }

  /** Key and value of a token; both must be non-empty. */
  function KeyValue(token: string): Option<(string, string)> {
    var e := Find(token, '=');
    if e == |token| || e == 0 || e + 1 == |token| then None
    else Some((token[..e], token[e + 1..]))
  }

  function Fold<T>(assign: (T, string, string) -> Option<T>, tokens: seq<string>, init: T): Option<T> {
    if tokens == [] then Some(init)
    else
      match KeyValue(tokens[0])
      case None => None
      case Some(kv) =>
        match assign(init, kv.0, kv.1)
        case None => None
        case Some(next) => Fold(assign, tokens[1..], next)
  }

  /** The value of the last token with this key. */
  function LastValue(tokens: seq<string>, key: string): Option<string> {
    if tokens == [] then None
    else
      var kv := KeyValue(tokens[|tokens| - 1]);
      if kv.Some? && kv.value.0 == key then Some(kv.value.1)
      else LastValue(tokens[..|tokens| - 1], key)
  }

  lemma LastValueOfSnoc(tokens: seq<string>, token: string, key: string)
    ensures LastValue(tokens + [token], key)
         == match KeyValue(token)
            case Some(kv) => if kv.0 == key then Some(kv.1) else LastValue(tokens, key)
            case None => LastValue(tokens, key)
  {
    assert (tokens + [token])[..|tokens|] == tokens;
  }

  function OrElse(value: Option<string>, default: string): string {
    if value.Some? then value.value else default
  }

  /** The last value of a numeric field, zero when it is missing. */
  function FieldU64(tokens: seq<string>, key: string): u64 {
    var v := ParseU64(OrElse(LastValue(tokens, key), "0"));
    if v.Some? then v.value else 0
  }

  lemma {:induction false} LastValueIsNotEmpty(tokens: seq<string>, key: string)
    ensures LastValue(tokens, key).Some? ==> LastValue(tokens, key).value != ""
  {
    if tokens != [] {
      LastValueIsNotEmpty(tokens[..|tokens| - 1], key);
    }
  }

  /** A line is what is read of it, then one of the four endings. */
  lemma EndingOf(line: string) returns (ending: string)
    ensures ending in {"", "\n", "\r", "\r\n"} && line == StripEol(line) + ending
    ensures line != "" && line[|line| - 1] in {'\n', '\r'} ==> ending != ""
  {
    var s := if line != "" && line[|line| - 1] == '\n' then line[..|line| - 1] else line;
    ending := line[|StripEol(line)|..];
    assert line == s + (if s == line then "" else "\n");
    if s != "" && s[|s| - 1] == '\r' {
      assert s == s[..|s| - 1] + "\r";
      assert ending == if s == line then "\r" else "\r\n";
    } else {
      assert ending == if s == line then "" else "\n";
    }
  }

  lemma TaggedFields(tag: string, body: string)
    ensures HasTag(tag, body) <==> body == tag || (exists fields :: body == tag + " " + fields)
    ensures forall fields :: body == tag + " " + fields ==> Tokens(body[|tag|..]) == Tokens(fields)
  {
    if HasTag(tag, body) && body != tag {
      assert body == tag + " " + body[|tag| + 1..];
    }
    forall fields | body == tag + " " + fields ensures Tokens(body[|tag|..]) == Tokens(fields) {
      assert body[|tag|..] == " " + fields;
      assert (" " + fields)[1..] == fields;
    }
  }

  /** Each pair preceded by a space, as the printers write them. */
  function Render(pairs: seq<(string, string)>): string {
    if pairs == [] then ""
    else " " + pairs[0].0 + "=" + pairs[0].1 + Render(pairs[1..])
  }

  lemma {:induction false} RenderSnoc(pairs: seq<(string, string)>, pair: (string, string))
    ensures Render(pairs + [pair]) == Render(pairs) + (" " + pair.0 + "=" + pair.1)
  {
    if pairs == [] {
      assert Render([pair]) == " " + pair.0 + "=" + pair.1 + Render([]);
      assert [] + [pair] == [pair];
    } else {
      RenderSnoc(pairs[1..], pair);
      assert (pairs + [pair])[1..] == pairs[1..] + [pair];
      var head, tail := " " + pairs[0].0 + "=" + pairs[0].1, Render(pairs[1..]);
      assert head + (tail + (" " + pair.0 + "=" + pair.1)) == (head + tail) + (" " + pair.0 + "=" + pair.1);
    }
  }

  lemma FirstField(tag: string, pairs: seq<(string, string)>)
    requires pairs != []
    ensures tag + Render(pairs[..1]) == tag + " " + pairs[0].0 + "=" + pairs[0].1
  {
    assert pairs[..1] == [pairs[0]];
    assert Render([pairs[0]]) == " " + pairs[0].0 + "=" + pairs[0].1 + Render([]);
  }

  /** One more field printed at the end of a line: its literal, then its value. */
  method AppendField(ghost tag: string, ghost pairs: seq<(string, string)>, ghost k: nat,
                     line: string, literal: string, value: string)
    returns (longer: string)
    requires k < |pairs| && literal == " " + pairs[k].0 + "=" && value == pairs[k].1
    requires line == tag + Render(pairs[..k])
    ensures longer == tag + Render(pairs[..k + 1])
  {
    hide Render;
    longer := line + literal;
    longer := longer + value;
    RenderSnoc(pairs[..k], pairs[k]);
    assert pairs[..k + 1] == pairs[..k] + [pairs[k]];
    assert (tag + Render(pairs[..k])) + literal + value == tag + (Render(pairs[..k]) + (literal + value));
  }

  /** Keys are written without separators. */
  predicate KeyText(key: string) {
    key != "" && forall i :: 0 <= i < |key| ==> key[i] != '=' && key[i] != ' ' && key[i] != '\n'
  }

  predicate ValueText(value: string) {
    value != "" && forall i :: 0 <= i < |value| ==> value[i] != ' ' && value[i] != '\n' && value[i] != '\r'
  }

  predicate Printable(pair: (string, string)) {
    KeyText(pair.0) && ValueText(pair.1)
  }

  function FoldPairs<T>(assign: (T, string, string) -> Option<T>, pairs: seq<(string, string)>, init: T): Option<T> {
    if pairs == [] then Some(init)
    else
      match assign(init, pairs[0].0, pairs[0].1)
      case None => None
      case Some(next) => FoldPairs(assign, pairs[1..], next)
  }

  /** Cutting at any space, the tokens are those of the two sides. */
  lemma {:induction false} TokensSplit(a: string, b: string)
    ensures Tokens(a + " " + b) == Tokens(a) + Tokens(b)
    decreases |a|
  {
    var s := a + " " + b;
    if a == "" {
      assert s[0] == ' ' && s[1..] == b;
    } else if a[0] == ' ' {
      TokensSplit(a[1..], b);
      assert s[1..] == a[1..] + " " + b;
    } else {
      var k := Find(a, ' ');
      assert s[..k] == a[..k];
      FindUnique(s, ' ', k);
      TokensSplit(a[k..], b);
      assert s[k..] == a[k..] + " " + b;
    }
  }

  lemma TokensOfWord(word: string)
    requires word != "" && Free(word, ' ')
    ensures Tokens(word) == [word]
  {
    assert word[..|word|] == word && word[|word|..] == "";
  }

  lemma KeyValueOf(key: string, value: string)
    requires KeyText(key) && value != ""
    ensures KeyValue(key + "=" + value) == Some((key, value))
  {
    var token := key + "=" + value;
    assert token[..|key|] == key;
    FindUnique(token, '=', |key|);
    assert token[|key| + 1..] == value;
  }

  lemma {:induction false} FoldAppend<T>(assign: (T, string, string) -> Option<T>, a: seq<string>, b: seq<string>, init: T)
    ensures Fold(assign, a + b, init)
         == match Fold(assign, a, init)
            case None => None
            case Some(mid) => Fold(assign, b, mid)
  {
    if a == [] {
      assert a + b == b;
    } else {
      assert (a + b)[1..] == a[1..] + b;
      var kv := KeyValue(a[0]);
      if kv.Some? {
        var next := assign(init, kv.value.0, kv.value.1);
        if next.Some? {
          FoldAppend(assign, a[1..], b, next.value);
        }
      }
    }
  }

  /** Tokenizing and folding printed pairs is folding the pairs. */
  lemma {:induction false} FoldRendered<T>(assign: (T, string, string) -> Option<T>, pairs: seq<(string, string)>, init: T)
    requires forall i :: 0 <= i < |pairs| ==> Printable(pairs[i])
    ensures Fold(assign, Tokens(Render(pairs)), init) == FoldPairs(assign, pairs, init)
  {
    if pairs != [] {
      var token := pairs[0].0 + "=" + pairs[0].1;
      TokensRenderedFirst(pairs);
      KeyValueOf(pairs[0].0, pairs[0].1);
      var tail := Tokens(Render(pairs[1..]));
      assert ([token] + tail)[1..] == tail;
      var next := assign(init, pairs[0].0, pairs[0].1);
      if next.Some? {
        FoldRendered(assign, pairs[1..], next.value);
      }
    }
  }

  lemma TokensRenderedFirst(pairs: seq<(string, string)>)
    requires pairs != [] && Printable(pairs[0])
    ensures Tokens(Render(pairs)) == [pairs[0].0 + "=" + pairs[0].1] + Tokens(Render(pairs[1..]))
  {
    var token := pairs[0].0 + "=" + pairs[0].1;
    var tail := Render(pairs[1..]);
    assert Render(pairs) == " " + (token + tail);
    assert Render(pairs)[1..] == token + tail;
    if pairs[1..] == [] {
      assert token + tail == token;
      TokensOfWord(token);
    } else {
      assert tail[0] == ' ';
      assert token + tail == token + " " + tail[1..];
      TokensSplit(token, tail[1..]);
      TokensOfWord(token);
    }
  }

  /** A parsing loop standing at a space may step over it. */
  lemma FoldAtSpace<T>(assign: (T, string, string) -> Option<T>, line: string, position: nat, record: T)
    requires position < |line| && line[position] == ' '
    ensures Fold(assign, Tokens(line[position..]), record) == Fold(assign, Tokens(line[position + 1..]), record)
  {
    hide Fold;
    assert line[position..][1..] == line[position + 1..];
  }

  /** A parsing loop standing at a token consumes exactly that token. */
  lemma FoldAtToken<T>(assign: (T, string, string) -> Option<T>, line: string, position: nat, tokenEnd: nat, record: T)
    requires position < |line| && line[position] != ' '
    requires tokenEnd == position + Find(line[position..], ' ')
    ensures Fold(assign, Tokens(line[position..]), record)
         == match KeyValue(line[position..tokenEnd])
            case None => None
            case Some(kv) =>
              match assign(record, kv.0, kv.1)
              case None => None
              case Some(next) => Fold(assign, Tokens(line[tokenEnd..]), next)
  {
    var left, token := line[position..], line[position..tokenEnd];
    var tail := Tokens(line[tokenEnd..]);
    assert left[..tokenEnd - position] == token && left[tokenEnd - position..] == line[tokenEnd..];
    assert Tokens(left) == [token] + tail;
    FoldOfCons(assign, token, tail, record);
  }

  lemma FoldOfCons<T>(assign: (T, string, string) -> Option<T>, token: string, tail: seq<string>, record: T)
    ensures Fold(assign, [token] + tail, record)
         == match KeyValue(token)
            case None => None
            case Some(kv) =>
              match assign(record, kv.0, kv.1)
              case None => None
              case Some(next) => Fold(assign, tail, next)
  {
    assert ([token] + tail)[1..] == tail;
  }

  lemma {:induction false} RenderEnds(pairs: seq<(string, string)>)
    requires pairs != [] && pairs[|pairs| - 1].1 != ""
    ensures Render(pairs) != "" && Render(pairs)[0] == ' '
    ensures var value := pairs[|pairs| - 1].1;
            Render(pairs)[|Render(pairs)| - 1] == value[|value| - 1]
  {
    var front, last := pairs[..|pairs| - 1], pairs[|pairs| - 1];
    RenderSnoc(front, last);
    assert pairs == front + [last];
  }

  /** A printed line, read back: the tag is recognised and the fields are left. */
  lemma RenderedBody(tag: string, pairs: seq<(string, string)>)
    requires pairs != [] && ValueText(pairs[|pairs| - 1].1)
    ensures var body := tag + Render(pairs);
            StripEol(body + "\n") == body && HasTag(tag, body) && body[|tag|..] == Render(pairs)
  {
    hide Render, StripEol, HasTag;
    RenderEnds(pairs);
    var fields := Render(pairs);
    TagThen(tag, fields);
    StripOneNewline(tag + fields);
  }

  lemma TagThen(tag: string, fields: string)
    requires fields != "" && fields[0] == ' '
    ensures HasTag(tag, tag + fields) && (tag + fields)[|tag|..] == fields
  {
  }

  lemma StripOneNewline(body: string)
    requires body != "" && body[|body| - 1] != '\r'
    ensures StripEol(body + "\n") == body
  {
    assert (body + "\n")[..|body|] == body;
  }

  /** A printed line is a single line: its one newline is its last character. */
  lemma RenderedIsLine(tag: string, pairs: seq<(string, string)>)
    requires Free(tag, '\n')
    requires forall i :: 0 <= i < |pairs| ==> Printable(pairs[i])
    ensures IsLine(tag + Render(pairs) + "\n")
  {
    hide Render, Printable, Free;
    RenderFree(pairs);
    FreeJoined(tag, Render(pairs), '\n');
    LineOfBody(tag + Render(pairs));
  }

  lemma FreeJoined(a: string, b: string, c: char)
    requires Free(a, c) && Free(b, c)
    ensures Free(a + b, c)
  {
  }

  lemma LineOfBody(body: string)
    requires Free(body, '\n')
    ensures IsLine(body + "\n")
  {
    assert (body + "\n")[..|body|] == body;
  }

  lemma {:induction false} RenderFree(pairs: seq<(string, string)>)
    requires forall i :: 0 <= i < |pairs| ==> Printable(pairs[i])
    ensures Free(Render(pairs), '\n')
  {
    if pairs != [] {
      assert Printable(pairs[0]);
      RenderFree(pairs[1..]);
    }
  }
}
