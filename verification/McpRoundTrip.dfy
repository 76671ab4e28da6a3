/** Reading undoes writing on the MCP stdio transport, in both modes, and a served input is answered in order. */
module McpRoundTrip {
  import opened Utf8
  import opened McpFraming
  import opened Sequences
  import opened Wrappers

  // ------------------------------------------------------------------ lines, trimming, numbers

  lemma {:induction false} LineEndsAtNewline(line: seq<byte>, tail: seq<byte>)
    requires line != [] && line[|line| - 1] == NEWLINE
    requires forall i :: 0 <= i < |line| - 1 ==> line[i] != NEWLINE
    ensures LineLength(line + tail) == |line|
    decreases |line|
  {
    if |line| > 1 {
      assert (line + tail)[1..] == line[1..] + tail;
      LineEndsAtNewline(line[1..], tail);
    }
  }

  lemma {:induction false} AsciiIsWellFormed(s: seq<byte>)
    requires forall i :: 0 <= i < |s| ==> s[i] <= 0x7F
    ensures WellFormed(s)
    decreases |s|
  {
    if s != [] {
      AsciiIsWellFormed(s[1..]);
    }
  }

  /** An ASCII byte that is no white space. */
  predicate Solid(b: byte) {
    b <= 0x7F && !(9 <= b <= 13) && b != 32
  }

  lemma SolidStart(s: seq<byte>)
    requires s != [] && Solid(s[0])
    ensures TrimStart(s) == s
  {
    assert LeadingSpace(s) == 0;
  }

  lemma SolidEnd(s: seq<byte>)
    requires s != [] && Solid(s[|s| - 1])
    ensures TrimEnd(s) == s
  {
    assert TrailingSpace(s) == 0;
  }

  lemma TrimKeepsSolid(s: seq<byte>)
    requires s != [] && Solid(s[0]) && Solid(s[|s| - 1])
    ensures Trim(s) == s
  {
    SolidStart(s);
    SolidEnd(s);
  }

  lemma TrimDropsNewline(s: seq<byte>)
    ensures TrimEnd(s + [NEWLINE]) == TrimEnd(s)
    ensures TrimEnd(s + [CR]) == TrimEnd(s)
  {
    assert (s + [NEWLINE])[..|s|] == s && (s + [CR])[..|s|] == s;
  }

  /** A newline at the end never matters to `trim`. */
  lemma {:induction false} TrimIgnoresNewline(s: seq<byte>)
    ensures Trim(s + [NEWLINE]) == Trim(s)
    decreases |s|
  {
    var n := LeadingSpace(s);
    var line := s + [NEWLINE];
    if s == [] {
      assert line[1..] == [];
      assert TrimStart(line) == TrimStart(line[1..]);
    } else {
      assert LeadingSpace(line) == n;
      if n == 0 {
        TrimDropsNewline(s);
      } else {
        assert line[n..] == s[n..] + [NEWLINE];
        TrimIgnoresNewline(s[n..]);
      }
    }
  }

  lemma {:induction false} DecimalDigits(n: nat)
    ensures forall i :: 0 <= i < |Decimal(n)| ==> IsDigit(Decimal(n)[i])
    decreases n
  {
    if n >= 10 {
      DecimalDigits(n / 10);
    }
  }

  lemma ValueNext(init: seq<byte>, m: nat, last: byte)
    requires Value(init) == Some(m) && IsDigit(last)
    ensures Value(init + [last]) == Some(m * 10 + (last as int - 48))
  {
    var digits := init + [last];
    assert digits[..|digits| - 1] == init && digits[|digits| - 1] == last;
  }

  lemma {:induction false} DecimalValue(n: nat)
    ensures Value(Decimal(n)) == Some(n)
    decreases n
  {
    var init := if n < 10 then [] else Decimal(n / 10);
    if n >= 10 {
      DecimalValue(n / 10);
    }
    ValueNext(init, n / 10, (48 + n % 10) as byte);
  }

  // ------------------------------------------------------------------ the header line

  function Header(n: nat): seq<byte> {
    HEADER + Decimal(n)
  }

  lemma HeaderIsSolid(n: nat)
    ensures forall i :: 0 <= i < |Header(n)| ==> Header(n)[i] <= 0x7F && Header(n)[i] != NEWLINE
    ensures Solid(Header(n)[0]) && Solid(Header(n)[|Header(n)| - 1])
  {
    DecimalDigits(n);
    var h := Header(n);
    forall i | 0 <= i < |h| ensures h[i] <= 0x7F && h[i] != NEWLINE {
      assert h[i] == if i < 16 then HEADER[i] else Decimal(n)[i - 16];
    }
    assert IsDigit(Decimal(n)[|Decimal(n)| - 1]);
  }

  lemma HeaderIsRecognised(n: nat)
    ensures IsLengthHeader(Header(n))
  {
    var h := Header(n);
    forall i | 0 <= i < |CONTENT_LENGTH| ensures Lower(h[i]) == CONTENT_LENGTH[i] {
      assert h[i] == HEADER[i];
    }
  }

  lemma {:induction false} AfterFirstColon(s: seq<byte>, k: nat)
    requires k < |s| && s[k] == COLON && forall i :: 0 <= i < k ==> s[i] != COLON
    ensures AfterColon(s) == Some(s[k + 1..])
    decreases k
  {
    if k > 0 {
      AfterFirstColon(s[1..], k - 1);
      assert s[1..][k..] == s[k + 1..];
    }
  }

  lemma DecimalParsesBack(n: nat)
    ensures ParseUsize(Decimal(n)) == if n < USIZE_BOUND then Some(n) else None
  {
    DecimalDigits(n);
    DecimalValue(n);
    assert IsDigit(Decimal(n)[0]);
  }

  lemma TrimDropsBlank(s: seq<byte>)
    requires s != [] && Solid(s[0]) && Solid(s[|s| - 1])
    ensures Trim([32] + s) == s
  {
    var t: seq<byte> := [32] + s;
    assert t[1..] == s;
    assert TrimStart(t) == TrimStart(s);
    SolidStart(s);
    SolidEnd(s);
  }

  lemma HeaderValue(n: nat)
    ensures AfterColon(Header(n)) == Some([32] + Decimal(n))
  {
    var h := Header(n);
    assert forall i :: 0 <= i < 16 ==> h[i] == HEADER[i];
    AfterFirstColon(h, 14);
    assert h[15..] == [32] + Decimal(n);
  }

  /** The length printed in a header is the length parsed from it, up to the limit and no further. */
  lemma HeaderParsesBack(n: nat)
    ensures ParseContentLength(Header(n)) == if n <= 16 * 1024 * 1024 then Some(n) else None
  {
    var digits := Decimal(n);
    DecimalDigits(n);
    assert IsDigit(digits[0]) && IsDigit(digits[|digits| - 1]);
    HeaderValue(n);
    TrimDropsBlank(digits);
    DecimalParsesBack(n);
  }

  lemma HeaderLine(n: nat, tail: seq<byte>)
    ensures var line := Header(n) + [CR, NEWLINE];
            && LineLength(line + tail) == |line| && WellFormed(line) && Trim(line) == Header(n)
  {
    HeaderIsSolid(n);
    var line := Header(n) + [CR, NEWLINE];
    LineEndsAtNewline(line, tail);
    AsciiIsWellFormed(line);
    assert line == Header(n) + [CR] + [NEWLINE];
    TrimIgnoresNewline(Header(n) + [CR]);
    TrimKeepsSolid(Header(n));
    assert TrimStart(Header(n) + [CR]) == Header(n) + [CR];
    TrimDropsNewline(Header(n));
  }

  lemma BlankLine(tail: seq<byte>)
    ensures var line := [CR, NEWLINE];
            && LineLength(line + tail) == 2 && WellFormed(line) && Trim(line) == []
  {
    var line := [CR, NEWLINE];
    LineEndsAtNewline(line, tail);
    AsciiIsWellFormed(line);
    assert line[1..] == [NEWLINE] && [NEWLINE][1..] == [];
    assert TrimStart(line) == TrimStart([NEWLINE]);
  }

  // ------------------------------------------------------------------ frames

  /** A text the transport can carry in a frame. */
  predicate Framable(text: seq<byte>) {
    WellFormed(text) && |text| <= 16 * 1024 * 1024
  }

  lemma FrameSplits(text: seq<byte>, tail: seq<byte>)
    ensures var line, blank := Header(|text|) + [CR, NEWLINE], [CR, NEWLINE];
            && Frame(text) + tail == line + (blank + (text + tail))
            && (Frame(text) + tail)[|line|..] == blank + (text + tail)
            && (Frame(text) + tail)[..|line|] == line
            && (blank + (text + tail))[2..] == text + tail && (blank + (text + tail))[..2] == blank
            && (text + tail)[..|text|] == text && (text + tail)[|text|..] == tail
  {
    var line, blank := Header(|text|) + [CR, NEWLINE], [CR, NEWLINE];
    assert Frame(text) + tail == line + (blank + (text + tail));
  }

  lemma FrameReadsBack(text: seq<byte>, tail: seq<byte>)
    requires Framable(text)
    ensures ReadLsp(Frame(text) + tail, None) == Text(text, tail)
    ensures Detect(Frame(text) + tail) == (Text(text, tail), LspStyle)
  {
    var n := |text|;
    var line, blank := Header(n) + [CR, NEWLINE], [CR, NEWLINE];
    var all, more := Frame(text) + tail, blank + (text + tail);
    FrameSplits(text, tail);
    HeaderLine(n, more);
    HeaderIsRecognised(n);
    HeaderParsesBack(n);
    BlankLine(text + tail);
    assert ReadBody(text + tail, n) == Text(text, tail);
    assert ReadLsp(more, Some(n)) == Text(text, tail);
    assert SkipHeaders(more) == Some(text + tail);
  }

  lemma FrameIsNext(mode: Mode, text: seq<byte>, tail: seq<byte>)
    requires Framable(text) && mode != JsonLines
    ensures ReadAll(mode, Frame(text) + tail) == ([text] + ReadAll(LspStyle, tail).0, ReadAll(LspStyle, tail).1)
  {
    FrameReadsBack(text, tail);
    ReadAllNext(mode, Frame(text) + tail, text, tail, LspStyle);
  }

  /** A longer text is refused by the reader, so the writer's own frame does not come back. */
  lemma OversizedFrameIsRefused(text: seq<byte>, tail: seq<byte>)
    requires |text| > 16 * 1024 * 1024
    ensures ReadLsp(Frame(text) + tail, None) == Broken && Detect(Frame(text) + tail) == (Broken, LspStyle)
  {
    FrameSplits(text, tail);
    HeaderLine(|text|, [CR, NEWLINE] + (text + tail));
    HeaderIsRecognised(|text|);
    HeaderParsesBack(|text|);
  }

  /** And so are bytes that are no text. */
  lemma NoTextIsRefused(text: seq<byte>, tail: seq<byte>)
    requires |text| <= MAX_CONTENT_LENGTH && !WellFormed(text)
    ensures ReadLsp(Frame(text) + tail, None) == Broken && Detect(Frame(text) + tail) == (Broken, LspStyle)
  {
    var n := |text|;
    var more := [CR, NEWLINE] + (text + tail);
    FrameSplits(text, tail);
    HeaderLine(n, more);
    HeaderIsRecognised(n);
    HeaderParsesBack(n);
    BlankLine(text + tail);
    assert ReadBody(text + tail, n) == Broken;
    assert ReadLsp(more, Some(n)) == Broken;
    assert SkipHeaders(more) == Some(text + tail);
  }

  lemma FrameIsRefused(mode: Mode, text: seq<byte>, tail: seq<byte>)
    requires !Framable(text) && mode != JsonLines
    ensures ReadAll(mode, Frame(text) + tail) == ([], false)
  {
    if |text| > MAX_CONTENT_LENGTH {
      OversizedFrameIsRefused(text, tail);
    } else {
      NoTextIsRefused(text, tail);
    }
  }

  /** Framing round trip: texts written in Content-Length form are read back exactly and in order, followed by a
      clean end, whether the reader already knows the mode or still has to detect it, if and only if each of them
      is text of at most 16 MiB. */
  lemma {:induction false} FramesReadBack(texts: seq<seq<byte>>, mode: Mode)
    requires mode != JsonLines
    ensures ReadAll(mode, WrittenAll(LspStyle, texts)) == (texts, true) <==> forall t :: t in texts ==> Framable(t)
    decreases |texts|
  {
    if texts != [] {
      var first, rest := texts[0], texts[1..];
      var tail := WrittenAll(LspStyle, rest);
      assert texts == [first] + rest;
      if Framable(first) {
        FrameIsNext(mode, first, tail);
        FramesReadBack(rest, LspStyle);
        assert (forall t :: t in texts ==> Framable(t)) <==> (forall t :: t in rest ==> Framable(t));
        SameAfter(first, ReadAll(LspStyle, tail).0, rest);
      } else {
        FrameIsRefused(mode, first, tail);
      }
    }
  }

  // ------------------------------------------------------------------ JSON lines

  /** A text that fits on a line and looks like a JSON object. */
  predicate OneLineObject(text: seq<byte>) {
    WellFormed(text) && NEWLINE !in text && Trim(text) != [] && Trim(text)[0] == BRACE
  }

  lemma LineReadsBack(text: seq<byte>, tail: seq<byte>)
    requires OneLineObject(text)
    ensures ReadJsonl(text + [NEWLINE] + tail) == Text(text + [NEWLINE], tail)
    ensures Detect(text + [NEWLINE] + tail) == (Text(text + [NEWLINE], tail), JsonLines)
  {
    var line := text + [NEWLINE];
    LineEndsAtNewline(line, tail);
    AsciiIsWellFormed([NEWLINE]);
    ValidUpToConcat(text, [NEWLINE]);
    TrimIgnoresNewline(text);
    assert (line + tail)[..|line|] == line && (line + tail)[|line|..] == tail;
  }

  function Trimmed(texts: seq<seq<byte>>): seq<seq<byte>> {
    seq(|texts|, i requires 0 <= i < |texts| => Trim(texts[i]))
  }

  /** The same in line form, up to trimming. */
  lemma {:induction false} LinesReadBack(texts: seq<seq<byte>>, mode: Mode)
    requires forall t :: t in texts ==> OneLineObject(t)
    requires mode != LspStyle
    ensures ReadAll(mode, WrittenAll(JsonLines, texts)).1
    ensures Trimmed(ReadAll(mode, WrittenAll(JsonLines, texts)).0) == Trimmed(texts)
    decreases |texts|
  {
    if texts != [] {
      var tail := WrittenAll(JsonLines, texts[1..]);
      LinesReadBack(texts[1..], JsonLines);
      LineIsNext(mode, texts[0], tail);
      TrimmedNext(texts);
    }
  }

  lemma TrimmedNext(texts: seq<seq<byte>>)
    requires texts != []
    ensures Trimmed(texts) == [Trim(texts[0])] + Trimmed(texts[1..])
  {
  }

  lemma LineIsNext(mode: Mode, text: seq<byte>, tail: seq<byte>)
    requires OneLineObject(text) && mode != LspStyle
    ensures ReadAll(mode, text + [NEWLINE] + tail).1 == ReadAll(JsonLines, tail).1
    ensures Trimmed(ReadAll(mode, text + [NEWLINE] + tail).0) == [Trim(text)] + Trimmed(ReadAll(JsonLines, tail).0)
  {
    LineReadsBack(text, tail);
    TrimIgnoresNewline(text);
    ReadAllNext(mode, text + [NEWLINE] + tail, text + [NEWLINE], tail, JsonLines);
    TrimmedNext([text + [NEWLINE]] + ReadAll(JsonLines, tail).0);
  }

  lemma ReadAllNext(mode: Mode, all: seq<byte>, text: seq<byte>, tail: seq<byte>, next: Mode)
    requires ReadMessage(mode, all) == (Text(text, tail), next)
    ensures ReadAll(mode, all) == ([text] + ReadAll(next, tail).0, ReadAll(next, tail).1)
  {
  }

  // ------------------------------------------------------------------ serving

  /** One round of the loop: `text` read, its content the trimmed `sent`. */
  lemma ServedNext(
    mode: Mode, all: seq<byte>, text: seq<byte>, sent: seq<byte>, tail: seq<byte>, next: Mode, k: nat, handle: Handler)
    requires ReadMessage(mode, all) == (Text(text, tail), next) && Trim(text) == Trim(sent)
    ensures Served(mode, all, k, handle) ==
            (if Answer(sent, k, handle).Some? then Written(next, Answer(sent, k, handle).value) else [])
            + Served(next, tail, k + 1, handle)
  {
  }

  lemma AnswersNext(text: seq<byte>, rest: seq<seq<byte>>, next: Mode, k: nat, handle: Handler)
    ensures WrittenAll(next, Answers([text] + rest, k, handle)) ==
            (if Answer(text, k, handle).Some? then Written(next, Answer(text, k, handle).value) else [])
            + WrittenAll(next, Answers(rest, k + 1, handle))
  {
    assert ([text] + rest)[1..] == rest;
    var later := Answers(rest, k + 1, handle);
    if Answer(text, k, handle).Some? {
      assert ([Answer(text, k, handle).value] + later)[1..] == later;
    } else {
      assert [] + later == later;
    }
  }

  /** In Content-Length mode the loop writes one frame for each answer, in the order of the requests. */
  lemma {:induction false} ServedFrames(texts: seq<seq<byte>>, mode: Mode, k: nat, handle: Handler)
    requires forall t :: t in texts ==> Framable(t)
    requires mode != JsonLines
    ensures Served(mode, WrittenAll(LspStyle, texts), k, handle) == WrittenAll(LspStyle, Answers(texts, k, handle))
    decreases |texts|
  {
    if texts != [] {
      var all, tail := WrittenAll(LspStyle, texts), WrittenAll(LspStyle, texts[1..]);
      FrameReadsBack(texts[0], tail);
      ServedNext(mode, all, texts[0], texts[0], tail, LspStyle, k, handle);
      ServedFrames(texts[1..], LspStyle, k + 1, handle);
      AnswersNext(texts[0], texts[1..], LspStyle, k, handle);
      assert texts == [texts[0]] + texts[1..];
    }
  }

  /** And in line mode one line. */
  lemma {:induction false} ServedLines(texts: seq<seq<byte>>, mode: Mode, k: nat, handle: Handler)
    requires forall t :: t in texts ==> OneLineObject(t)
    requires mode != LspStyle
    ensures Served(mode, WrittenAll(JsonLines, texts), k, handle) == WrittenAll(JsonLines, Answers(texts, k, handle))
    decreases |texts|
  {
    if texts != [] {
      var all, tail := WrittenAll(JsonLines, texts), WrittenAll(JsonLines, texts[1..]);
      LineReadsBack(texts[0], tail);
      TrimIgnoresNewline(texts[0]);
      ServedNext(mode, all, texts[0] + [NEWLINE], texts[0], tail, JsonLines, k, handle);
      ServedLines(texts[1..], JsonLines, k + 1, handle);
      AnswersNext(texts[0], texts[1..], JsonLines, k, handle);
      assert texts == [texts[0]] + texts[1..];
    }
  }

  /** End to end: a client that frames its messages and reads the server's output with the same reader gets
      exactly the answers, in order, and then a clean end, if and only if every answer given is text of at most
      16 MiB. */
  lemma ClientReadsAllAnswers(texts: seq<seq<byte>>, handle: Handler)
    requires forall t :: t in texts ==> Framable(t)
    ensures ReadAll(AutoDetect, Served(AutoDetect, WrittenAll(LspStyle, texts), 0, handle)) == (Answers(texts, 0, handle), true)
            <==> forall a :: a in Answers(texts, 0, handle) ==> Framable(a)
  {
    ServedFrames(texts, AutoDetect, 0, handle);
    FramesReadBack(Answers(texts, 0, handle), AutoDetect);
  }

  /** In line form, up to trimming, when every answer given is an object on one line. */
  lemma ClientReadsAllLines(texts: seq<seq<byte>>, handle: Handler)
    requires forall t :: t in texts ==> OneLineObject(t)
    requires forall a :: a in Answers(texts, 0, handle) ==> OneLineObject(a)
    ensures var output := ReadAll(AutoDetect, Served(AutoDetect, WrittenAll(JsonLines, texts), 0, handle));
            output.1 && Trimmed(output.0) == Trimmed(Answers(texts, 0, handle))
  {
    ServedLines(texts, AutoDetect, 0, handle);
    LinesReadBack(Answers(texts, 0, handle), AutoDetect);
  }
}
