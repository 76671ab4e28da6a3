/** The MCP stdio transport: mode detection, Content-Length frames, JSON lines, and the request loop, over the
    bytes of standard input and output. */
module McpFraming {
  import opened Utf8
  import opened Sequences
  import opened Wrappers

  const MAX_CONTENT_LENGTH: nat := 16 * 1024 * 1024
  const USIZE_BOUND: nat := 0x1_0000_0000_0000_0000
  const NEWLINE: byte := 10
  const CR: byte := 13
  const BRACE: byte := 123
  const COLON: byte := 58
  const PLUS: byte := 43

  datatype Mode = AutoDetect | JsonLines | LspStyle

  /** What reading one message gives: the end of input, a text with the input that is left, or an error. */
  datatype Read = Eof | Text(text: seq<byte>, rest: seq<byte>) | Broken

  // ------------------------------------------------------------------ white space

  /** The characters of Unicode's White_Space property, in UTF-8, by their length. */
  predicate Space1(b: byte) {
    9 <= b <= 13 || b == 32
  }

  predicate Space2(b: byte, c: byte) {
    b == 0xC2 && (c == 0x85 || c == 0xA0)
  }

  predicate Space3(b: byte, c: byte, d: byte) {
    || (b == 0xE1 && c == 0x9A && d == 0x80)
    || (b == 0xE2 && c == 0x80 && (0x80 <= d <= 0x8A || d == 0xA8 || d == 0xA9 || d == 0xAF))
    || (b == 0xE2 && c == 0x81 && d == 0x9F)
    || (b == 0xE3 && c == 0x80 && d == 0x80)
  }

  function LeadingSpace(s: seq<byte>): (n: nat)
    ensures n <= |s|
  {
    if |s| >= 1 && Space1(s[0]) then 1
    else if |s| >= 2 && Space2(s[0], s[1]) then 2
    else if |s| >= 3 && Space3(s[0], s[1], s[2]) then 3
    else 0
  }

  function TrailingSpace(s: seq<byte>): (n: nat)
    ensures n <= |s|
  {
    var k := |s|;
    if k >= 1 && Space1(s[k - 1]) then 1
    else if k >= 2 && Space2(s[k - 2], s[k - 1]) then 2
    else if k >= 3 && Space3(s[k - 3], s[k - 2], s[k - 1]) then 3
    else 0
  }

  function TrimStart(s: seq<byte>): (t: seq<byte>)
    ensures |t| <= |s|
    decreases |s|
  {
    if LeadingSpace(s) == 0 then s else TrimStart(s[LeadingSpace(s)..])
  }

  function TrimEnd(s: seq<byte>): (t: seq<byte>)
    ensures |t| <= |s|
    decreases |s|
  {
    if TrailingSpace(s) == 0 then s else TrimEnd(s[..|s| - TrailingSpace(s)])
  }

  function Trim(s: seq<byte>): seq<byte> {
    TrimEnd(TrimStart(s))
  }

  // ------------------------------------------------------------------ numbers and headers

  function Decimal(n: nat): (s: seq<byte>)
    ensures |s| >= 1
  {
    (if n < 10 then [] else Decimal(n / 10)) + [(48 + n % 10) as byte]
  }

  predicate IsDigit(b: byte) {
    48 <= b <= 57
  }

  function Value(digits: seq<byte>): Option<nat> {
    if digits == [] then Some(0)
    else
      var init, last := Value(digits[..|digits| - 1]), digits[|digits| - 1];
      if init.None? || !IsDigit(last) then None else Some(init.value * 10 + (last as int - 48))
  }

  /** `str::parse::<usize>` */
  function ParseUsize(s: seq<byte>): Option<nat> {
    var digits := if s != [] && s[0] == PLUS then s[1..] else s;
    if digits == [] then None
    else
      var v := Value(digits);
      if v.None? || v.value >= USIZE_BOUND then None else v
  }

  function AfterColon(s: seq<byte>): Option<seq<byte>> {
    if s == [] then None else if s[0] == COLON then Some(s[1..]) else AfterColon(s[1..])
  }

  /** `parse_content_length`; `None` for every error. */
  function ParseContentLength(header: seq<byte>): Option<nat> {
    var value := AfterColon(header);
    if value.None? then None
    else
      var length := ParseUsize(Trim(value.value));
      if length.None? || length.value > MAX_CONTENT_LENGTH then None else length
  }

  /** "content-length:" */
  const CONTENT_LENGTH: seq<byte> := [99, 111, 110, 116, 101, 110, 116, 45, 108, 101, 110, 103, 116, 104, 58]

  function Lower(b: byte): byte {
    if 65 <= b <= 90 then b + 32 else b
  }

  /** `to_lowercase().starts_with("content-length:")`; no character outside ASCII has one of these letters as
      its lower case. */
  predicate IsLengthHeader(line: seq<byte>) {
    |line| >= |CONTENT_LENGTH| && forall i :: 0 <= i < |CONTENT_LENGTH| ==> Lower(line[i]) == CONTENT_LENGTH[i]
  }

  // ------------------------------------------------------------------ reading

  /** The length of the first line, its newline included. */
  function LineLength(s: seq<byte>): (n: nat)
    ensures n <= |s| && (s != [] ==> n > 0)
  {
    if s == [] then 0 else if s[0] == NEWLINE then 1 else 1 + LineLength(s[1..])
  }

  function ReadBody(rest: seq<byte>, length: nat): Read {
    if |rest| < length || !WellFormed(rest[..length]) then Broken else Text(rest[..length], rest[length..])
  }

  /** `read_lsp_message`, with the length seen so far. */
  function ReadLsp(rest: seq<byte>, length: Option<nat>): (r: Read)
    ensures r.Text? ==> |r.rest| < |rest|
    decreases |rest|
  {
    if rest == [] then Eof
    else
      var n := LineLength(rest);
      var line, more := rest[..n], rest[n..];
      if !WellFormed(line) then Broken
      else
        var header := Trim(line);
        if header == [] then if length.None? then Broken else ReadBody(more, length.value)
        else if !IsLengthHeader(header) then ReadLsp(more, length)
        else if ParseContentLength(header).None? then Broken
        else ReadLsp(more, ParseContentLength(header))
  }

  /** The input after the blank line that ends the headers; end of input counts as one. */
  function SkipHeaders(rest: seq<byte>): (r: Option<seq<byte>>)
    ensures r.Some? ==> |r.value| <= |rest|
    decreases |rest|
  {
    var n := LineLength(rest);
    if !WellFormed(rest[..n]) then None
    else if Trim(rest[..n]) == [] then Some(rest[n..])
    else if n == 0 then Some(rest)
    else SkipHeaders(rest[n..])
  }

  function ReadJsonl(rest: seq<byte>): (r: Read)
    ensures r.Text? ==> |r.rest| < |rest|
  {
    var n := LineLength(rest);
    if rest == [] then Eof else if !WellFormed(rest[..n]) then Broken else Text(rest[..n], rest[n..])
  }

  /** The rest of a message whose first line was a length header. */
  function ReadDetected(header: seq<byte>, more: seq<byte>): (r: Read)
    ensures r.Text? ==> |r.rest| <= |more|
  {
    var length := ParseContentLength(header);
    if length.None? then Broken
    else
      var body := SkipHeaders(more);
      if body.None? then Broken else ReadBody(body.value, length.value)
  }

  /** `detect_and_read_message`: the message and the mode for the next one. */
  function Detect(rest: seq<byte>): (r: (Read, Mode))
    ensures r.0.Text? ==> |r.0.rest| < |rest|
  {
    var n := LineLength(rest);
    var line, more := rest[..n], rest[n..];
    var first := Trim(line);
    if rest == [] then (Eof, AutoDetect)
    else if !WellFormed(line) then (Broken, AutoDetect)
    else if IsLengthHeader(first) then (ReadDetected(first, more), LspStyle)
    else if first == [] then (Text([], more), AutoDetect)
    else (Text(line, more), JsonLines)
  }

  function ReadMessage(mode: Mode, rest: seq<byte>): (r: (Read, Mode))
    ensures r.0.Text? ==> |r.0.rest| < |rest|
  {
    match mode
    case AutoDetect => Detect(rest)
    case JsonLines => (ReadJsonl(rest), JsonLines)
    case LspStyle => (ReadLsp(rest, None), LspStyle)
  }

  /** All messages of an input, and whether it ended cleanly. */
  function ReadAll(mode: Mode, rest: seq<byte>): (seq<seq<byte>>, bool)
    decreases |rest|
  {
    var (r, next) := ReadMessage(mode, rest);
    match r
    case Eof => ([], true)
    case Broken => ([], false)
    case Text(text, more) =>
      var (texts, clean) := ReadAll(next, more);
      ([text] + texts, clean)
  }

  // ------------------------------------------------------------------ writing and serving

  /** "Content-Length: " */
  const HEADER: seq<byte> := [67, 111, 110, 116, 101, 110, 116, 45, 76, 101, 110, 103, 116, 104, 58, 32]

  function Frame(text: seq<byte>): seq<byte> {
    HEADER + Decimal(|text|) + [CR, NEWLINE] + [CR, NEWLINE] + text
  }

  function Written(mode: Mode, text: seq<byte>): seq<byte> {
    if mode == LspStyle then Frame(text) else text + [NEWLINE]
  }

  function WrittenAll(mode: Mode, texts: seq<seq<byte>>): seq<byte> {
    if texts == [] then [] else Written(mode, texts[0]) + WrittenAll(mode, texts[1..])
  }

  /** `handle_message` as the loop sees it: the answer, if any, to the content of the `k`-th message. The number
      stands for everything the answer may depend on besides the content: earlier calls, agents, time. */
  type Handler = (nat, seq<byte>) -> Option<seq<byte>>

  /** What the loop answers to one message: nothing to a blank one or a notification. */
  function Answer(text: seq<byte>, k: nat, handle: Handler): Option<seq<byte>> {
    if Trim(text) == [] then None else handle(k, Trim(text))
  }

  function Answers(texts: seq<seq<byte>>, k: nat, handle: Handler): seq<seq<byte>> {
    if texts == [] then []
    else (if Answer(texts[0], k, handle).Some? then [Answer(texts[0], k, handle).value] else [])
         + Answers(texts[1..], k + 1, handle)
  }

  /** Everything `run_stdio` writes for an input, from its `k`-th message on. */
  function Served(mode: Mode, rest: seq<byte>, k: nat, handle: Handler): seq<byte>
    decreases |rest|
  {
    var (r, next) := ReadMessage(mode, rest);
    if !r.Text? then []
    else (if Answer(r.text, k, handle).Some? then Written(next, Answer(r.text, k, handle).value) else [])
         + Served(next, r.rest, k + 1, handle)
  }

  /** Standard input with its read position, and what has been written to standard output. */
  class Stdio {
    const input: seq<byte>
    var pos: nat
    var output: seq<byte>

    ghost predicate Valid()
      reads this
    {
      pos <= |input|
    }

    function Rest(): seq<byte>
      requires Valid()
      reads this
    {
      input[pos..]
    }

    constructor (input: seq<byte>)
      ensures Valid() && Rest() == input && output == [] && this.input == input
    {
      this.input := input;
      pos, output := 0, [];
    }

    /** `read_line`: the bytes up to and including a newline, which must be UTF-8. */
    method ReadLine() returns (line: seq<byte>, ok: bool)
      requires Valid()
      modifies this`pos
      ensures Valid() && line == old(Rest())[..LineLength(old(Rest()))] && Rest() == old(Rest())[LineLength(old(Rest()))..]
      ensures ok == WellFormed(line)
    {
      var start := pos;
      while pos < |input| && input[pos] != NEWLINE
        invariant start <= pos <= |input|
        invariant LineLength(input[start..]) == pos - start + LineLength(input[pos..])
      {
        assert input[pos..][1..] == input[pos + 1..];
        pos := pos + 1;
      }
      if pos < |input| {
        pos := pos + 1;
      }
      line := input[start..pos];
      ok := WellFormed(line);
    }

    method ReadExact(length: nat) returns (r: Option<seq<byte>>)
      requires Valid()
      modifies this`pos
      ensures Valid()
      ensures match ReadBody(old(Rest()), length)
              case Text(text, rest) => r == Some(text) && Rest() == rest
              case _ => r == None
    {
      if |input| - pos < length {
        return None;
      }
      var content := input[pos..pos + length];
      assert content == Rest()[..length];
      pos := pos + length;
      r := if WellFormed(content) then Some(content) else None;
    }

    method ReadLspMessage() returns (r: Read)
      requires Valid()
      modifies this`pos
      ensures Valid() && r == ReadLsp(old(Rest()), None) && (r.Text? ==> Rest() == r.rest)
    {
      var contentLength: Option<nat> := None;
      while true
        invariant Valid()
        invariant ReadLsp(old(Rest()), None) == ReadLsp(Rest(), contentLength)
        decreases |Rest()|
      {
        var line, ok := ReadLine();
        if !ok {
          return Broken;
        }
        if line == [] {
          return Eof;
        }
        var header := Trim(line);
        if header == [] {
          break;
        }
        if IsLengthHeader(header) {
          contentLength := ParseContentLength(header);
          if contentLength == None {
            return Broken;
          }
        }
      }
      if contentLength == None {
        return Broken;
      }
      var content := ReadExact(contentLength.value);
      r := if content == None then Broken else Text(content.value, Rest());
    }

    method ReadJsonlMessage() returns (r: Read)
      requires Valid()
      modifies this`pos
      ensures Valid() && r == ReadJsonl(old(Rest())) && (r.Text? ==> Rest() == r.rest)
    {
      var line, ok := ReadLine();
      r := if !ok then Broken else if line == [] then Eof else Text(line, Rest());
    }

    method DetectAndReadMessage() returns (r: Read, mode: Mode)
      requires Valid()
      modifies this`pos
      ensures Valid() && (r, mode) == Detect(old(Rest())) && (r.Text? ==> Rest() == r.rest)
    {
      mode := AutoDetect;
      var firstLine, ok := ReadLine();
      if !ok {
        return Broken, mode;
      }
      if firstLine == [] {
        return Eof, mode;
      }
      var trimmed := Trim(firstLine);
      if IsLengthHeader(trimmed) {
        mode := LspStyle;
        r := ReadDetectedBody(trimmed);
      } else if trimmed != [] && trimmed[0] == BRACE {
        mode := JsonLines;
        r := Text(firstLine, Rest());
      } else if trimmed == [] {
        r := Text([], Rest());
      } else {
        mode := JsonLines;
        r := Text(firstLine, Rest());
      }
    }

    /** Its length-header branch: parse, skip the other headers, read the body. */
    method ReadDetectedBody(header: seq<byte>) returns (r: Read)
      requires Valid()
      modifies this`pos
      ensures Valid() && r == ReadDetected(header, old(Rest())) && (r.Text? ==> Rest() == r.rest)
    {
      var contentLength := ParseContentLength(header);
      if contentLength == None {
        return Broken;
      }
      while true
        invariant Valid()
        invariant SkipHeaders(old(Rest())) == SkipHeaders(Rest())
        decreases |Rest()|
      {
        var headerLine, good := ReadLine();
        if !good {
          return Broken;
        }
        if Trim(headerLine) == [] {
          break;
        }
      }
      var content := ReadExact(contentLength.value);
      r := if content == None then Broken else Text(content.value, Rest());
    }

    method ReadNextMessage(mode: Mode) returns (r: Read, next: Mode)
      requires Valid()
      modifies this`pos
      ensures Valid() && (r, next) == ReadMessage(mode, old(Rest())) && (r.Text? ==> Rest() == r.rest)
    {
      next := mode;
      match mode {
        case AutoDetect => r, next := DetectAndReadMessage();
        case JsonLines => r := ReadJsonlMessage();
        case LspStyle => r := ReadLspMessage();
      }
    }

    /** `run_stdio`: read, answer, write, until the input ends or breaks. */
    method RunStdio(handle: Handler)
      requires Valid()
      modifies this
      ensures output == old(output) + Served(AutoDetect, old(Rest()), 0, handle)
    {
      var mode, k := AutoDetect, 0;
      ghost var all := Served(AutoDetect, Rest(), 0, handle);
      assert output + all == old(output) + all;
      while true
        invariant Valid()
        invariant output + Served(mode, Rest(), k, handle) == old(output) + all
        decreases |Rest()|
      {
        ghost var before := Rest();
        var r, next := ReadNextMessage(mode);
        OutputNext(mode, before, k, handle, output);
        mode := next;
        if !r.Text? {
          break;
        }
        var content := Trim(r.text);
        if content != [] {
          var response := handle(k, content);
          if response.Some? {
            output := output + Written(mode, response.value);
          }
        }
        k := k + 1;
      }
    }
  }

  lemma ServedUnfolds(mode: Mode, rest: seq<byte>, k: nat, handle: Handler)
    ensures var (r, next) := ReadMessage(mode, rest);
            Served(mode, rest, k, handle) ==
            if !r.Text? then []
            else (if Answer(r.text, k, handle).Some? then Written(next, Answer(r.text, k, handle).value) else [])
                 + Served(next, r.rest, k + 1, handle)
  {
  }

  lemma OutputNext(mode: Mode, rest: seq<byte>, k: nat, handle: Handler, out: seq<byte>)
    ensures var (r, next) := ReadMessage(mode, rest);
            out + Served(mode, rest, k, handle) ==
            if !r.Text? then out
            else (if Answer(r.text, k, handle).Some? then out + Written(next, Answer(r.text, k, handle).value) else out)
                 + Served(next, r.rest, k + 1, handle)
  {
    var (r, next) := ReadMessage(mode, rest);
    ServedUnfolds(mode, rest, k, handle);
    if r.Text? {
      var later := Served(next, r.rest, k + 1, handle);
      if Answer(r.text, k, handle).Some? {
        Regroup(out, Written(next, Answer(r.text, k, handle).value), later);
      } else {
        assert [] + later == later;
      }
    }
  }
}
