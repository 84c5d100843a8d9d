/**
 * The telnet property-tree client of flightgear_python/fg_if.py (PropsConnection):
 * command framing, collecting a reply up to the "/> " prompt, "-ERR" detection,
 * the `key = 'value' (type)` line parser with its conversion table, get_prop,
 * set_prop and the recursive list_props.
 *
 * The socket is a queue of received chunks; text is a sequence of characters
 * (the UTF-8 encode/decode steps are the identity here). The replies of the
 * server to `ls` commands are a map from directory path to reply text.
 */
module Props {
  import opened Wrappers
  import opened Text

  /** FGCommunicationError, a reply that never reaches the prompt, and Python's recursion limit. */
  datatype Failure = CommunicationError | NoPrompt | RecursionLimit

  /** A converted property value: bool(), int(), float(), or the string itself. */
  datatype PropValue = BoolValue(b: bool) | IntValue(i: int) | DoubleValue(d: real) | StrValue(s: string)

  /** Python's int() and float() on a value string; None stands for a ValueError. */
  datatype Converters = Converters(toInt: string -> Option<int>, toDouble: string -> Option<real>)

  const Prompt: string := "/> "
  const PromptLine: string := "\r\n/> "
  const ErrMark: string := "-ERR"

  // ---------------------------------------------------------------------
  // Framing
  // ---------------------------------------------------------------------

  /** _telnet_str: a command line is the command followed by CRLF. */
  function TelnetStr(cmd: string): (line: string)
    ensures |line| == |cmd| + 2 && EndsWith(line, CRLF)
  {
    cmd + CRLF
  }

  /** The command is recovered from its line by stripping the CRLF. */
  lemma TelnetStrInverse(cmd: string)
    ensures StripEnd(TelnetStr(cmd), CRLF) == cmd
    ensures TelnetStr(cmd)[..|cmd|] == cmd
  {
    StripEndAppend(cmd, CRLF);
  }

  /** The text received after the first n chunks. */
  function Concat(chunks: seq<string>): string
  {
    if chunks == [] then [] else Concat(chunks[..|chunks| - 1]) + chunks[|chunks| - 1]
  }

  lemma ConcatSnoc(chunks: seq<string>, n: nat)
    requires n < |chunks|
    ensures Concat(chunks[..n + 1]) == Concat(chunks[..n]) + chunks[n]
  {
    assert chunks[..n + 1][..n] == chunks[..n];
  }

  /** n chunks are one reply: they end with the prompt and no shorter prefix does. */
  predicate ReplyEnds(chunks: seq<string>, n: nat)
  {
    0 < n <= |chunks|
    && EndsWith(Concat(chunks[..n]), Prompt)
    && forall m :: 0 <= m < n ==> !EndsWith(Concat(chunks[..m]), Prompt)
  }

  /** No prefix of the chunks ends with the prompt. */
  predicate NeverPrompt(chunks: seq<string>)
  {
    forall m :: 0 <= m <= |chunks| ==> !EndsWith(Concat(chunks[..m]), Prompt)
  }

  /** The reply length is determined by the chunks. */
  lemma ReplyEndsUnique(chunks: seq<string>, n: nat, n': nat)
    requires ReplyEnds(chunks, n) && ReplyEnds(chunks, n')
    ensures n == n'
  {
  }

  /** A chunk sequence either holds a reply or never shows the prompt. */
  lemma ReplyOrNever(chunks: seq<string>, n: nat)
    requires ReplyEnds(chunks, n)
    ensures !NeverPrompt(chunks)
  {
  }

  /** A reply may arrive in pieces: the prompt completes in the chunk that ends it. */
  lemma SplitPromptReply(a: string, b: string, rest: seq<string>)
    requires !EndsWith(a, Prompt) && EndsWith(a + b, Prompt)
    ensures ReplyEnds([a, b] + rest, 2)
  {
    var cs := [a, b] + rest;
    assert cs[..0] == [];
    assert cs[..1] == [a] && cs[..1][..0] == [];
    assert cs[..2] == [a, b] && cs[..2][..1] == [a];
  }

  /** What the client makes of the collected text: strip "\r\n/> ", reject "-ERR" replies. */
  function Interpret(buf: string): (r: Result<string, Failure>)
    ensures r.Ok? ==> !StartsWith(r.value, ErrMark) && StartsWith(buf, r.value)
    ensures r.Err? ==> r.error == CommunicationError
  {
    var text := StripEnd(buf, PromptLine);
    StripEndPrefix(buf, PromptLine);
    if StartsWith(text, ErrMark) then Err(CommunicationError) else Ok(text)
  }

  /** A reply framed by the server gives back its body, unless the body is an error. */
  lemma InterpretFramed(body: string)
    ensures Interpret(body + PromptLine) == if StartsWith(body, ErrMark) then Err(CommunicationError) else Ok(body)
  {
    StripEndAppend(body, PromptLine);
  }

  /** A bare prompt with no line before it is returned whole. */
  lemma InterpretBarePrompt()
    ensures Interpret(Prompt) == Ok(Prompt)
  {
    assert !EndsWith(Prompt, PromptLine);
  }

  /** The outcome of one exchange: how the reply ended and which chunks remain. */
  ghost predicate Answered(chunks: seq<string>, rest: seq<string>, r: Result<string, Failure>)
  {
    if r == Err(NoPrompt) then rest == [] && NeverPrompt(chunks)
    else exists n: nat :: ReplyEnds(chunks, n) && rest == chunks[n..] && r == Interpret(Concat(chunks[..n]))
  }

  /** A framed reply that arrives in one chunk is consumed whole and leaves the later chunks. */
  lemma AnsweredFramed(body: string, rest: seq<string>)
    ensures Answered([body + PromptLine] + rest, rest, Interpret(body + PromptLine))
  {
    var cs := [body + PromptLine] + rest;
    assert (body + PromptLine)[|body| + 2..] == Prompt;
    assert cs[..1] == [body + PromptLine] && cs[..1][..0] == [];
    assert Concat(cs[..1]) == body + PromptLine;
    assert cs[..0] == [];
    assert ReplyEnds(cs, 1);
    assert cs[1..] == rest;
  }

  // ---------------------------------------------------------------------
  // The `key = 'value' (type)` line parser
  // ---------------------------------------------------------------------

  /** Python's \s on text: the characters str.isspace accepts. */
  predicate IsSpace(c: char)
  {
    c == ' ' || ('\t' <= c <= '\r') || ('\U{1c}' <= c <= '\U{1f}') || c == '\U{85}' || c == '\U{a0}'
    || c == '\U{1680}' || ('\U{2000}' <= c <= '\U{200a}') || c == '\U{2028}' || c == '\U{2029}'
    || c == '\U{202f}' || c == '\U{205f}' || c == '\U{3000}'
  }

  /** The end of the run of spaces that starts at i. */
  function SkipSpaces(s: string, i: nat): (j: nat)
    requires i <= |s|
    ensures i <= j <= |s|
    ensures forall k :: i <= k < j ==> IsSpace(s[k])
    ensures j == |s| || !IsSpace(s[j])
    decreases |s| - i
  {
    if i < |s| && IsSpace(s[i]) then SkipSpaces(s, i + 1) else i
  }

  /**
   * The line matches ^(.+)\s=\s+'(.*)'\s+\((.+)\)$ with a key of k characters
   * and a value of v characters. Each \s+ is the whole run of spaces, because
   * the character after it is not a space.
   */
  predicate ShapeAt(s: string, k: nat, v: nat)
  {
    1 <= k && k + 2 <= |s| && IsSpace(s[k]) && s[k + 1] == '='
    && var j := SkipSpaces(s, k + 2);
    k + 2 < j && j + 1 + v < |s| && s[j] == '\'' && s[j + 1 + v] == '\''
    && var p := SkipSpaces(s, j + 2 + v);
    j + 2 + v < p && p + 2 < |s| && s[p] == '(' && s[|s| - 1] == ')'
  }

  /** The longest value length, at most v, that fits a key of k characters. */
  function FindValue(s: string, k: nat, v: nat): (r: Option<nat>)
    ensures r.Some? ==> r.value <= v && ShapeAt(s, k, r.value)
    ensures r.Some? ==> forall v' :: r.value < v' <= v ==> !ShapeAt(s, k, v')
    ensures r.None? ==> forall v' :: 0 <= v' <= v ==> !ShapeAt(s, k, v')
  {
    if ShapeAt(s, k, v) then Some(v) else if v == 0 then None else FindValue(s, k, v - 1)
  }

  lemma ShapeBounds(s: string, k: nat, v: nat)
    requires ShapeAt(s, k, v)
    ensures k < |s| && v < |s|
  {
  }

  /** Every value length that fits a key of k characters is below the line length. */
  lemma ValueLengthsBelow(s: string, k: nat)
    ensures forall v: nat :: ShapeAt(s, k, v) ==> v < |s|
  {
    forall v: nat | ShapeAt(s, k, v) {
      ShapeBounds(s, k, v);
    }
  }

  /** Key and value lengths in the order the regex engine tries them, longest first. */
  predicate NotAfter(k: nat, v: nat, kv: (nat, nat))
  {
    k < kv.0 || (k == kv.0 && v <= kv.1)
  }

  /**
   * The match the regex engine picks: the longest key, at most k characters,
   * and for it the longest value.
   */
  function FindKey(s: string, k: nat): (r: Option<(nat, nat)>)
    ensures r.Some? ==> r.value.0 <= k && ShapeAt(s, r.value.0, r.value.1)
    ensures r.Some? ==> forall k': nat, v': nat :: k' <= k && ShapeAt(s, k', v') ==> NotAfter(k', v', r.value)
    ensures r.None? ==> forall k': nat, v': nat :: k' <= k ==> !ShapeAt(s, k', v')
  {
    var found := FindValue(s, k, |s|);
    ValueLengthsBelow(s, k);
    if found.Some? then Some((k, found.value))
    else if k == 0 then None
    else FindKey(s, k - 1)
  }

  /** re.search on a whole line: the key and value lengths of the match, if any. */
  function Match(s: string): (r: Option<(nat, nat)>)
    ensures r.None? <==> forall k: nat, v: nat :: !ShapeAt(s, k, v)
    ensures r.Some? ==> ShapeAt(s, r.value.0, r.value.1)
    ensures r.Some? ==> forall k: nat, v: nat :: ShapeAt(s, k, v) ==> NotAfter(k, v, r.value)
  {
    var r := FindKey(s, |s|);
    assert forall k: nat, v: nat :: ShapeAt(s, k, v) ==> k <= |s| by {
      forall k: nat, v: nat | ShapeAt(s, k, v) { ShapeBounds(s, k, v); }
    }
    r
  }

  /** The three groups of a match: key, value and type. */
  function Groups(s: string, k: nat, v: nat): (g: (string, string, string))
    requires ShapeAt(s, k, v)
    ensures |g.0| == k && |g.1| == v && |g.2| >= 1
  {
    var j := SkipSpaces(s, k + 2);
    var p := SkipSpaces(s, j + 2 + v);
    (s[..k], s[j + 1..j + 1 + v], s[p + 1..|s| - 1])
  }

  /** The conversion table: bool by truthiness, int and double by the parsers, anything else as text. */
  function Convert(typ: string, value: string, conv: Converters): (r: Result<PropValue, Failure>)
    ensures r.Err? <==> (typ == "int" && conv.toInt(value).None?) || (typ == "double" && conv.toDouble(value).None?)
    ensures r.Err? ==> r.error == CommunicationError
    ensures typ == "bool" ==> r == Ok(BoolValue(value != []))
    ensures typ != "bool" && typ != "int" && typ != "double" ==> r == Ok(StrValue(value))
  {
    if typ == "bool" then Ok(BoolValue(|value| > 0))
    else if typ == "int" then
      (match conv.toInt(value)
       case Some(i) => Ok(IntValue(i))
       case None => Err(CommunicationError))
    else if typ == "string" then Ok(StrValue(value))
    else if typ == "double" then
      (match conv.toDouble(value)
       case Some(d) => Ok(DoubleValue(d))
       case None => Err(CommunicationError))
    else Ok(StrValue(value))
  }

  /** _extract_fg_prop: the key and the converted value of a reply line. */
  function ExtractProp(line: string, conv: Converters): (r: Result<(string, PropValue), Failure>)
    ensures r.Err? ==> r.error == CommunicationError
    ensures Match(line).None? ==> r.Err?
    ensures r.Ok? ==> Match(line).Some? && r.value.0 == Groups(line, Match(line).value.0, Match(line).value.1).0
    ensures Match(line).Some? ==>
      var g := Groups(line, Match(line).value.0, Match(line).value.1);
      (r.Err? <==> Convert(g.2, g.1, conv).Err?) && (r.Ok? ==> r.value == (g.0, Convert(g.2, g.1, conv).value))
  {
    match Match(line)
    case None => Err(CommunicationError)
    case Some((k, v)) =>
      var (key, value, typ) := Groups(line, k, v);
      match Convert(typ, value, conv)
      case Err(e) => Err(e)
      case Ok(x) => Ok((key, x))
  }

  /** The line the server prints for one property. */
  function Render(key: string, value: string, typ: string): string
  {
    key + " = '" + value + "' (" + typ + ")"
  }

  /** Characters of a rendered line, by region. */
  lemma RenderChars(key: string, value: string, typ: string)
    ensures var s := Render(key, value, typ);
      var q := |key| + 4 + |value|;
      |s| == q + |typ| + 4
      && s[..|key|] == key && s[|key|] == ' ' && s[|key| + 1] == '=' && s[|key| + 2] == ' ' && s[|key| + 3] == '\''
      && s[|key| + 4..q] == value && s[q] == '\'' && s[q + 1] == ' ' && s[q + 2] == '('
      && s[q + 3..|s| - 1] == typ && s[|s| - 1] == ')'
  {
  }

  /** The layout of a rendered line gives a match with its key and value lengths. */
  lemma ShapeOfLayout(s: string, kl: nat, vl: nat)
    requires 1 <= kl && kl + vl + 9 <= |s|
    requires s[kl] == ' ' && s[kl + 1] == '=' && s[kl + 2] == ' ' && s[kl + 3] == '\''
    requires s[kl + 4 + vl] == '\'' && s[kl + 5 + vl] == ' ' && s[kl + 6 + vl] == '(' && s[|s| - 1] == ')'
    ensures SkipSpaces(s, kl + 2) == kl + 3 && SkipSpaces(s, kl + 5 + vl) == kl + 6 + vl
    ensures ShapeAt(s, kl, vl)
  {
    assert SkipSpaces(s, kl + 3) == kl + 3;
    assert SkipSpaces(s, kl + 6 + vl) == kl + 6 + vl;
  }

  /** With no '=' after the key's and no quote after the value's, no later match exists. */
  lemma LayoutMaximal(s: string, kl: nat, vl: nat)
    requires kl + vl + 9 <= |s|
    requires s[kl + 2] == ' ' && s[kl + 3] == '\''
    requires forall i :: kl + 2 <= i < |s| ==> s[i] != '='
    requires forall i :: kl + 4 + vl < i < |s| ==> s[i] != '\''
    ensures forall k: nat, v: nat :: ShapeAt(s, k, v) ==> NotAfter(k, v, (kl, vl))
  {
    assert SkipSpaces(s, kl + 3) == kl + 3;
    forall k: nat, v: nat | ShapeAt(s, k, v)
      ensures NotAfter(k, v, (kl, vl))
    {
      if k == kl {
        assert s[kl + 4 + v] == '\'';
      }
    }
  }

  /** The match of a line is the one that every other match comes before. */
  lemma MatchIsGreatest(s: string, kl: nat, vl: nat)
    requires ShapeAt(s, kl, vl)
    requires forall k: nat, v: nat :: ShapeAt(s, k, v) ==> NotAfter(k, v, (kl, vl))
    ensures Match(s) == Some((kl, vl))
  {
  }

  lemma RenderNoEquals(key: string, value: string, typ: string)
    requires forall i :: 0 <= i < |value| ==> value[i] != '='
    requires forall i :: 0 <= i < |typ| ==> typ[i] != '='
    ensures forall i :: |key| + 2 <= i < |Render(key, value, typ)| ==> Render(key, value, typ)[i] != '='
  {
    var s := Render(key, value, typ);
    var q := |key| + 4 + |value|;
    RenderChars(key, value, typ);
    forall i | |key| + 2 <= i < |s|
      ensures s[i] != '='
    {
      if |key| + 4 <= i < q {
        assert s[i] == s[|key| + 4..q][i - |key| - 4];
      } else if q + 3 <= i < |s| - 1 {
        assert s[i] == s[q + 3..|s| - 1][i - q - 3];
      }
    }
  }

  lemma RenderNoQuote(key: string, value: string, typ: string)
    requires forall i :: 0 <= i < |typ| ==> typ[i] != '\''
    ensures forall i :: |key| + 4 + |value| < i < |Render(key, value, typ)| ==> Render(key, value, typ)[i] != '\''
  {
    var s := Render(key, value, typ);
    var q := |key| + 4 + |value|;
    RenderChars(key, value, typ);
    forall i | q < i < |s|
      ensures s[i] != '\''
    {
      if q + 3 <= i < |s| - 1 {
        assert s[i] == s[q + 3..|s| - 1][i - q - 3];
      }
    }
  }

  /** A rendered line matches with its own key and value lengths, and the groups are its parts. */
  lemma RenderGroups(key: string, value: string, typ: string)
    requires |key| >= 1 && |typ| >= 1
    ensures ShapeAt(Render(key, value, typ), |key|, |value|)
    ensures Groups(Render(key, value, typ), |key|, |value|) == (key, value, typ)
  {
    var s := Render(key, value, typ);
    RenderChars(key, value, typ);
    ShapeOfLayout(s, |key|, |value|);
  }

  /**
   * A line rendered from a key, a value without '=' and a type without '=' or
   * a quote is parsed back into the same three parts.
   */
  lemma ExtractRender(key: string, value: string, typ: string)
    requires |key| >= 1 && |typ| >= 1
    requires forall i :: 0 <= i < |value| ==> value[i] != '='
    requires forall i :: 0 <= i < |typ| ==> typ[i] != '=' && typ[i] != '\''
    ensures Match(Render(key, value, typ)) == Some((|key|, |value|))
    ensures Groups(Render(key, value, typ), |key|, |value|) == (key, value, typ)
  {
    var s := Render(key, value, typ);
    RenderGroups(key, value, typ);
    RenderNoEquals(key, value, typ);
    RenderNoQuote(key, value, typ);
    LayoutMaximal(s, |key|, |value|);
    MatchIsGreatest(s, |key|, |value|);
  }

  /**
   * The engine prefers the longest key: rendering a value that holds " = '"
   * gives a line whose match moves part of the value into the key.
   */
  lemma GreedyKey()
    ensures Render("a", "b = 'c", "t") == Render("a = 'b", "c", "t")
    ensures Match(Render("a", "b = 'c", "t")) == Some((6, 1))
  {
    var line := "a = 'b = 'c' (t)";
    assert Render("a", "b = 'c", "t") == line;
    assert Render("a = 'b", "c", "t") == line;
    ExtractRender("a = 'b", "c", "t");
  }

  // ---------------------------------------------------------------------
  // The connection: get_prop, set_prop and the exchange they share
  // ---------------------------------------------------------------------

  /** Both exchanges that satisfy Answered on the same chunks are the same exchange. */
  lemma AnsweredUnique(chunks: seq<string>, rest: seq<string>, r: Result<string, Failure>,
                       rest': seq<string>, r': Result<string, Failure>)
    requires Answered(chunks, rest, r) && Answered(chunks, rest', r')
    ensures rest == rest' && r == r'
  {
    if r != Err(NoPrompt) {
      var n: nat :| ReplyEnds(chunks, n) && rest == chunks[n..] && r == Interpret(Concat(chunks[..n]));
      ReplyOrNever(chunks, n);
      var n': nat :| ReplyEnds(chunks, n') && rest' == chunks[n'..] && r' == Interpret(Concat(chunks[..n']));
      ReplyEndsUnique(chunks, n, n');
    }
  }

  /** The value get_prop returns for a reply: the converted value of its one line. */
  function ValueOf(reply: Result<string, Failure>, conv: Converters): (r: Result<PropValue, Failure>)
    ensures reply.Err? ==> r == Err(reply.error)
    ensures reply.Ok? && Match(reply.value).None? ==> r == Err(CommunicationError)
  {
    match reply
    case Err(e) => Err(e)
    case Ok(text) =>
      match ExtractProp(text, conv)
      case Err(e) => Err(e)
      case Ok(kv) => Ok(kv.1)
  }

  /** A reply line framed by the prompt, not starting with '-', is what the exchange returns. */
  lemma FramedAnswer(line: string, rest: seq<string>, rest': seq<string>, reply: Result<string, Failure>)
    requires |line| > 0 && line[0] != '-'
    requires Answered([line + PromptLine] + rest, rest', reply)
    ensures rest' == rest && reply == Ok(line)
  {
    AnsweredFramed(line, rest);
    AnsweredUnique([line + PromptLine] + rest, rest', reply, rest, Interpret(line + PromptLine));
    InterpretFramed(line);
  }

  /** The value of a rendered line is the conversion of its value by its type. */
  lemma ValueOfRender(key: string, value: string, typ: string, conv: Converters)
    requires |key| >= 1 && |typ| >= 1
    requires forall i :: 0 <= i < |value| ==> value[i] != '='
    requires forall i :: 0 <= i < |typ| ==> typ[i] != '=' && typ[i] != '\''
    ensures ValueOf(Ok(Render(key, value, typ)), conv) == Convert(typ, value, conv)
  {
    ExtractRender(key, value, typ);
  }

  /**
   * get_prop end to end: a property line framed by the prompt yields the
   * conversion of its value, and the chunks after it are left for later.
   */
  lemma GetPropReply(key: string, value: string, typ: string, rest: seq<string>, conv: Converters,
                     rest': seq<string>, reply: Result<string, Failure>)
    requires |key| >= 1 && |typ| >= 1 && key[0] != '-'
    requires forall i :: 0 <= i < |value| ==> value[i] != '='
    requires forall i :: 0 <= i < |typ| ==> typ[i] != '=' && typ[i] != '\''
    requires Answered([Render(key, value, typ) + PromptLine] + rest, rest', reply)
    ensures rest' == rest
    ensures ValueOf(reply, conv) == Convert(typ, value, conv)
  {
    var line := Render(key, value, typ);
    assert line[0] == key[0];
    FramedAnswer(line, rest, rest', reply);
    ValueOfRender(key, value, typ, conv);
  }

  /**
   * PropsConnection over an abstract socket: `sent` is every line written with
   * sendall, `inbox` the chunks that recv will still return, in order.
   */
  class PropsConnection {
    var sent: seq<string>
    var inbox: seq<string>

    constructor (chunks: seq<string>)
      ensures sent == [] && inbox == chunks
    {
      sent := [];
      inbox := chunks;
    }

    /**
     * _send_cmd_get_resp: send the command line, then receive chunks until the
     * text ends with the prompt; strip the prompt line and reject "-ERR".
     * When the chunks run out first the model reports NoPrompt.
     */
    method SendCmdGetResp(cmd: string) returns (r: Result<string, Failure>)
      modifies this
      ensures sent == old(sent) + [TelnetStr(cmd)]
      ensures Answered(old(inbox), inbox, r)
    {
      sent := sent + [TelnetStr(cmd)];
      var buf: string := [];
      ghost var n: nat := 0;
      while !EndsWith(buf, Prompt)
        invariant sent == old(sent) + [TelnetStr(cmd)]
        invariant n <= |old(inbox)| && inbox == old(inbox)[n..]
        invariant buf == Concat(old(inbox)[..n])
        invariant forall m :: 0 <= m < n ==> !EndsWith(Concat(old(inbox)[..m]), Prompt)
        decreases |inbox|
      {
        if inbox == [] {
          assert old(inbox)[..n] == old(inbox);
          return Err(NoPrompt);
        }
        ConcatSnoc(old(inbox), n);
        buf := buf + inbox[0];
        inbox := inbox[1..];
        n := n + 1;
      }
      r := Interpret(buf);
      assert ReplyEnds(old(inbox), n);
    }

    /** connect, after the socket is open: move to the root directory. */
    method Connect() returns (r: Result<(), Failure>)
      modifies this
      ensures sent == old(sent) + [TelnetStr("cd /")]
      ensures exists reply :: Answered(old(inbox), inbox, reply) && (r.Err? <==> reply.Err?)
                              && (reply.Err? ==> r.error == reply.error)
    {
      var reply := SendCmdGetResp("cd /");
      r := if reply.Err? then Err(reply.error) else Ok(());
    }

    /** get_prop: ask for one property and convert its value. */
    method GetProp(prop: string, conv: Converters) returns (r: Result<PropValue, Failure>)
      modifies this
      ensures sent == old(sent) + [TelnetStr("get " + prop)]
      ensures exists reply :: Answered(old(inbox), inbox, reply) && r == ValueOf(reply, conv)
    {
      var reply := SendCmdGetResp("get " + prop);
      if reply.Err? {
        return Err(reply.error);
      }
      var kv := ExtractProp(reply.value, conv);
      if kv.Err? {
        return Err(kv.error);
      }
      r := Ok(kv.value.1);
    }

    /** set_prop: send the assignment; only a failed exchange is reported. */
    method SetProp(prop: string, value: string) returns (r: Result<(), Failure>)
      modifies this
      ensures sent == old(sent) + [TelnetStr("set " + prop + " " + value)]
      ensures exists reply :: Answered(old(inbox), inbox, reply) && (r.Err? <==> reply.Err?)
                              && (reply.Err? ==> r.error == reply.error)
    {
      var reply := SendCmdGetResp("set " + prop + " " + value);
      r := if reply.Err? then Err(reply.error) else Ok(());
    }
  }
}
