/** Header blocks in full: any list of header lines, a blank line, and what follows. */
module McpHeaders {
  import opened Utf8
  import opened McpFraming
  import opened Wrappers
  import McpRoundTrip

  /** One line of the input, its newline included. */
  predicate OneLine(line: seq<byte>) {
    line != [] && line[|line| - 1] == NEWLINE && NEWLINE !in line[..|line| - 1] && WellFormed(line)
  }

  predicate HeaderLine(line: seq<byte>) {
    OneLine(line) && Trim(line) != []
  }

  predicate BlankLine(line: seq<byte>) {
    OneLine(line) && Trim(line) == []
  }

  function Lines(headers: seq<seq<byte>>): seq<byte> {
    if headers == [] then [] else headers[0] + Lines(headers[1..])
  }

  /** The lengths given by the length headers among these lines, in order; `None` for one that does not parse. */
  function Lengths(headers: seq<seq<byte>>): seq<Option<nat>> {
    if headers == [] then []
    else (if IsLengthHeader(Trim(headers[0])) then [ParseContentLength(Trim(headers[0]))] else []) + Lengths(headers[1..])
  }

  /** The length in force after the headers, if `before` was before them. */
  function LastLength(lengths: seq<Option<nat>>, before: Option<nat>): Option<nat> {
    if lengths == [] then before else lengths[|lengths| - 1]
  }

  lemma LineIsFirst(line: seq<byte>, more: seq<byte>)
    requires OneLine(line)
    ensures LineLength(line + more) == |line| && (line + more)[..|line|] == line && (line + more)[|line|..] == more
  {
    forall i | 0 <= i < |line| - 1 ensures line[i] != NEWLINE {
      assert line[..|line| - 1][i] == line[i];
    }
    McpRoundTrip.LineEndsAtNewline(line, more);
  }

  lemma LengthsNext(headers: seq<seq<byte>>, before: Option<nat>)
    requires headers != []
    ensures var here := IsLengthHeader(Trim(headers[0]));
            var length := ParseContentLength(Trim(headers[0]));
            && (None in Lengths(headers) <==> (here && length == None) || None in Lengths(headers[1..]))
            && LastLength(Lengths(headers), before) == LastLength(Lengths(headers[1..]), if here then length else before)
  {
  }

  lemma LinesNext(headers: seq<seq<byte>>, tail: seq<byte>)
    requires headers != []
    ensures Lines(headers) + tail == headers[0] + (Lines(headers[1..]) + tail)
  {
  }

  lemma ReadsOneHeader(line: seq<byte>, more: seq<byte>, length: Option<nat>)
    requires HeaderLine(line)
    ensures ReadLsp(line + more, length) ==
            if !IsLengthHeader(Trim(line)) then ReadLsp(more, length)
            else if ParseContentLength(Trim(line)) == None then Broken
            else ReadLsp(more, ParseContentLength(Trim(line)))
  {
    LineIsFirst(line, more);
  }

  lemma ReadsBlank(blank: seq<byte>, rest: seq<byte>, length: Option<nat>)
    requires BlankLine(blank)
    ensures ReadLsp(blank + rest, length) == if length == None then Broken else ReadBody(rest, length.value)
  {
    LineIsFirst(blank, rest);
  }

  /** A line that is no text breaks every reader. */
  lemma BadLineBreaks(line: seq<byte>, more: seq<byte>, length: Option<nat>)
    requires line != [] && line[|line| - 1] == NEWLINE && NEWLINE !in line[..|line| - 1] && !WellFormed(line)
    ensures ReadLsp(line + more, length) == Broken && ReadJsonl(line + more) == Broken
    ensures Detect(line + more) == (Broken, AutoDetect) && SkipHeaders(line + more) == None
  {
    forall i | 0 <= i < |line| - 1 ensures line[i] != NEWLINE {
      assert line[..|line| - 1][i] == line[i];
    }
    McpRoundTrip.LineEndsAtNewline(line, more);
    assert (line + more)[..|line|] == line;
  }

  /** Reading in frame mode, for every header block: the headers come in any order, those that are no length are
      ignored whatever they say, one bad length spoils the message, the last length counts, and without one the
      message is refused. */
  lemma {:induction false} ReadsHeaderBlock(headers: seq<seq<byte>>, blank: seq<byte>, rest: seq<byte>, before: Option<nat>)
    requires (forall h :: h in headers ==> HeaderLine(h)) && BlankLine(blank)
    ensures ReadLsp(Lines(headers) + (blank + rest), before) ==
            if None in Lengths(headers) || LastLength(Lengths(headers), before) == None then Broken
            else ReadBody(rest, LastLength(Lengths(headers), before).value)
    decreases |headers|
  {
    if headers == [] {
      assert Lines(headers) + (blank + rest) == blank + rest;
      ReadsBlank(blank, rest, before);
    } else {
      var here, length := IsLengthHeader(Trim(headers[0])), ParseContentLength(Trim(headers[0]));
      LinesNext(headers, blank + rest);
      ReadsOneHeader(headers[0], Lines(headers[1..]) + (blank + rest), before);
      LengthsNext(headers, before);
      if !(here && length == None) {
        ReadsHeaderBlock(headers[1..], blank, rest, if here then length else before);
      }
    }
  }

  /** So a frame with further headers reads like one without. */
  lemma FrameWithHeadersReadsBack(headers: seq<seq<byte>>, blank: seq<byte>, body: seq<byte>, tail: seq<byte>)
    requires (forall h :: h in headers ==> HeaderLine(h)) && BlankLine(blank) && WellFormed(body)
    requires None !in Lengths(headers) && LastLength(Lengths(headers), None) == Some(|body|)
    ensures ReadLsp(Lines(headers) + (blank + (body + tail)), None) == Text(body, tail)
  {
    ReadsHeaderBlock(headers, blank, body + tail, None);
    assert (body + tail)[..|body|] == body && (body + tail)[|body|..] == tail;
  }

  /** Headers that the end of the input cuts off before the blank line read as a clean end. */
  lemma {:induction false} CutOffHeadersAreAnEnd(headers: seq<seq<byte>>, before: Option<nat>)
    requires forall h :: h in headers ==> HeaderLine(h)
    ensures ReadLsp(Lines(headers), before) == if None in Lengths(headers) then Broken else Eof
    decreases |headers|
  {
    if headers != [] {
      var here, length := IsLengthHeader(Trim(headers[0])), ParseContentLength(Trim(headers[0]));
      ReadsOneHeader(headers[0], Lines(headers[1..]), before);
      LengthsNext(headers, before);
      if !(here && length == None) {
        CutOffHeadersAreAnEnd(headers[1..], if here then length else before);
      }
    }
  }

  // ------------------------------------------------------------------ the first message

  lemma SkipsOneHeader(line: seq<byte>, more: seq<byte>)
    requires HeaderLine(line)
    ensures SkipHeaders(line + more) == SkipHeaders(more)
  {
    LineIsFirst(line, more);
  }

  lemma SkipsBlank(blank: seq<byte>, rest: seq<byte>)
    requires BlankLine(blank)
    ensures SkipHeaders(blank + rest) == Some(rest)
  {
    LineIsFirst(blank, rest);
  }

  lemma {:induction false} SkipsHeaderBlock(headers: seq<seq<byte>>, blank: seq<byte>, rest: seq<byte>)
    requires (forall h :: h in headers ==> HeaderLine(h)) && BlankLine(blank)
    ensures SkipHeaders(Lines(headers) + (blank + rest)) == Some(rest)
    decreases |headers|
  {
    if headers == [] {
      assert Lines(headers) + (blank + rest) == blank + rest;
      SkipsBlank(blank, rest);
    } else {
      assert headers[0] in headers;
      LinesNext(headers, blank + rest);
      SkipsOneHeader(headers[0], Lines(headers[1..]) + (blank + rest));
      SkipsHeaderBlock(headers[1..], blank, rest);
    }
  }

  lemma NothingToSkip(rest: seq<byte>)
    requires rest == []
    ensures SkipHeaders(rest) == Some(rest)
  {
    assert rest[..0] == rest && WellFormed(rest) && TrimStart(rest) == rest && TrimEnd(rest) == rest;
  }

  lemma {:induction false} SkipsToTheEnd(headers: seq<seq<byte>>)
    requires forall h :: h in headers ==> HeaderLine(h)
    ensures SkipHeaders(Lines(headers)) == Some([])
    decreases |headers|
  {
    if headers == [] {
      NothingToSkip(Lines(headers));
    } else {
      assert headers[0] in headers;
      SkipsOneHeader(headers[0], Lines(headers[1..]));
      SkipsToTheEnd(headers[1..]);
    }
  }

  /** Detection, for every first message that starts with a length header: whatever headers follow, even further
      lengths, are skipped unread, so here the first length counts; and the end of the input does for a blank line. */
  lemma DetectsHeaderBlock(first: seq<byte>, headers: seq<seq<byte>>, blank: seq<byte>, rest: seq<byte>)
    requires HeaderLine(first) && IsLengthHeader(Trim(first)) && (forall h :: h in headers ==> HeaderLine(h)) && BlankLine(blank)
    ensures var length := ParseContentLength(Trim(first));
            && Detect(first + (Lines(headers) + (blank + rest))) ==
               (if length == None then Broken else ReadBody(rest, length.value), LspStyle)
            && Detect(first + Lines(headers)) == (if length == None then Broken else ReadBody([], length.value), LspStyle)
  {
    LineIsFirst(first, Lines(headers) + (blank + rest));
    LineIsFirst(first, Lines(headers));
    SkipsHeaderBlock(headers, blank, rest);
    SkipsToTheEnd(headers);
  }

  /** So a message with two lengths is read by the first if it comes first, and by the second if it comes later. */
  lemma TwoLengthsDisagree(first: seq<byte>, second: seq<byte>, blank: seq<byte>, rest: seq<byte>, m: nat, n: nat)
    requires HeaderLine(first) && IsLengthHeader(Trim(first)) && ParseContentLength(Trim(first)) == Some(m)
    requires HeaderLine(second) && IsLengthHeader(Trim(second)) && ParseContentLength(Trim(second)) == Some(n)
    requires BlankLine(blank)
    ensures Detect(first + (second + (blank + rest))) == (ReadBody(rest, m), LspStyle)
    ensures ReadLsp(first + (second + (blank + rest)), None) == ReadBody(rest, n)
  {
    LineIsFirst(first, second + (blank + rest));
    SkipsOneHeader(second, blank + rest);
    SkipsBlank(blank, rest);
    ReadsOneHeader(first, second + (blank + rest), None);
    ReadsOneHeader(second, blank + rest, Some(m));
    ReadsBlank(blank, rest, Some(n));
  }

  /** The other first lines: a blank one leaves the mode open, any other line is a message and settles on lines. */
  lemma DetectsLine(line: seq<byte>, rest: seq<byte>)
    requires OneLine(line) && !IsLengthHeader(Trim(line))
    ensures Detect(line + rest) == if Trim(line) == [] then (Text([], rest), AutoDetect) else (Text(line, rest), JsonLines)
  {
    LineIsFirst(line, rest);
  }

  /** The length of a body is taken at its word. */
  lemma BodyIsExact(rest: seq<byte>, length: nat)
    ensures ReadBody(rest, length) == Broken <==> |rest| < length || !WellFormed(rest[..length])
    ensures ReadBody(rest, length) != Broken ==>
              exists body, tail :: rest == body + tail && |body| == length && ReadBody(rest, length) == Text(body, tail)
  {
    if |rest| >= length {
      assert rest == rest[..length] + rest[length..];
    }
  }

  // ------------------------------------------------------------------ names and numbers

  /** A length header is one whose name is "content-length:" in any mixture of small and capital letters. */
  lemma HeaderNameIff(line: seq<byte>)
    ensures IsLengthHeader(line) <==>
              && |line| >= 15
              && forall i :: 0 <= i < 15 ==>
                   || line[i] == CONTENT_LENGTH[i]
                   || (97 <= CONTENT_LENGTH[i] <= 122 && line[i] == CONTENT_LENGTH[i] - 32)
  {
    assert |CONTENT_LENGTH| == 15;
    forall i | 0 <= i < 15 && i < |line|
      ensures Lower(line[i]) == CONTENT_LENGTH[i] <==>
              line[i] == CONTENT_LENGTH[i] || (97 <= CONTENT_LENGTH[i] <= 122 && line[i] == CONTENT_LENGTH[i] - 32)
    {
      NameByte(i);
      LowerIff(line[i], CONTENT_LENGTH[i]);
    }
  }

  lemma NameByte(i: nat)
    requires i < 15
    ensures var c := CONTENT_LENGTH[i]; 97 <= c <= 122 || c == 45 || c == 58
  {
  }

  lemma LowerIff(b: byte, c: byte)
    requires 97 <= c <= 122 || c == 45 || c == 58
    ensures Lower(b) == c <==> b == c || (97 <= c <= 122 && b == c - 32)
  {
  }

  function Zeros(k: nat): (s: seq<byte>)
    ensures |s| == k
  {
    if k == 0 then [] else [48] + Zeros(k - 1)
  }

  /** The value of digits grows from the right. */
  lemma {:induction false} DigitsHaveValue(s: seq<byte>)
    ensures Value(s).Some? <==> forall i :: 0 <= i < |s| ==> IsDigit(s[i])
    decreases |s|
  {
    if s != [] {
      DigitsHaveValue(s[..|s| - 1]);
      assert forall i :: 0 <= i < |s| - 1 ==> s[..|s| - 1][i] == s[i];
    }
  }

  lemma ZerosGrow(k: nat)
    ensures Zeros(k) + [48] == Zeros(k + 1)
  {
    if k > 0 {
      ZerosGrow(k - 1);
      assert Zeros(k) + [48] == [48] + (Zeros(k - 1) + [48]);
    }
  }

  lemma {:induction false} LeadingZeros(k: nat, s: seq<byte>)
    requires Value(s).Some?
    ensures Value(Zeros(k) + s) == Value(s)
    decreases |s|, k
  {
    var all := Zeros(k) + s;
    if s == [] {
      assert all == Zeros(k);
      if k > 0 {
        LeadingZeros(k - 1, s);
        ZerosGrow(k - 1);
        assert Zeros(k - 1) + s == Zeros(k - 1) && all[..|all| - 1] == Zeros(k - 1) && all[|all| - 1] == 48;
      }
    } else {
      var init, last := s[..|s| - 1], s[|s| - 1];
      assert all[..|all| - 1] == Zeros(k) + init && all[|all| - 1] == last;
      LeadingZeros(k, init);
    }
  }

  /** Digits with a value are some zeros and then the decimal form of that value. */
  lemma {:induction false} DigitsAreDecimal(s: seq<byte>) returns (k: nat)
    requires s != [] && Value(s).Some?
    ensures s == Zeros(k) + Decimal(Value(s).value)
    decreases |s|
  {
    var init, last := s[..|s| - 1], s[|s| - 1];
    var n, d := Value(s).value, last as int - 48;
    assert s == init + [last];
    if init == [] {
      k := 0;
      assert Value(init) == Some(0) && n == d;
    } else {
      var m := Value(init).value;
      var j := DigitsAreDecimal(init);
      assert n == m * 10 + d && n / 10 == m && n % 10 == d;
      if m > 0 {
        k := j;
        assert Decimal(n) == Decimal(m) + [last];
        assert Zeros(k) + Decimal(n) == init + [last];
      } else {
        k := j + 1;
        ZerosGrow(j);
        assert Decimal(m) == [48] && Decimal(n) == [last];
      }
    }
  }

  /** An optional plus sign, `k` zeros, and the decimal form of `n`. */
  predicate Numeral(s: seq<byte>, plus: bool, k: nat, n: nat) {
    s == (if plus then [PLUS] else []) + (Zeros(k) + Decimal(n))
  }

  /** What `parse` accepts as a length and what it makes of it: numerals of numbers that fit. */
  lemma ParsesIff(s: seq<byte>, n: nat)
    ensures ParseUsize(s) == Some(n) <==> n < 0x1_0000_0000_0000_0000 && exists plus: bool, k: nat :: Numeral(s, plus, k, n)
  {
    if ParseUsize(s) == Some(n) {
      var k := ParsedIsNumeral(s, n);
    }
    if plus: bool, k: nat :| n < USIZE_BOUND && Numeral(s, plus, k, n) {
      NumeralParses(s, plus, k, n);
    }
  }

  lemma ParsedIsNumeral(s: seq<byte>, n: nat) returns (k: nat)
    requires ParseUsize(s) == Some(n)
    ensures Numeral(s, s[0] == PLUS, k, n) && n < USIZE_BOUND
  {
    if s[0] == PLUS {
      k := DigitsAreDecimal(s[1..]);
      assert s == [PLUS] + s[1..];
    } else {
      k := DigitsAreDecimal(s);
      assert s == [] + s;
    }
  }

  lemma NumeralParses(s: seq<byte>, plus: bool, k: nat, n: nat)
    requires n < USIZE_BOUND && Numeral(s, plus, k, n)
    ensures ParseUsize(s) == Some(n)
  {
    var digits := Zeros(k) + Decimal(n);
    NumeralValue(digits, k, n);
    if plus {
      assert s[1..] == digits;
    } else {
      assert s == digits;
    }
  }

  lemma NumeralValue(digits: seq<byte>, k: nat, n: nat)
    requires digits == Zeros(k) + Decimal(n)
    ensures digits != [] && digits[0] != PLUS && Value(digits) == Some(n)
  {
    McpRoundTrip.DecimalValue(n);
    LeadingZeros(k, Decimal(n));
    DigitsHaveValue(digits);
    assert IsDigit(digits[0]);
  }
}
