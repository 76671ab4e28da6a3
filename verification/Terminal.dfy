/** The terminal output pipeline: a bounded tail of everything appended, and the incremental decoder that
    feeds it from arbitrarily split reads. */
module Terminal {
  import opened Utf8
  import opened Sequences
  import opened Wrappers

  // ------------------------------------------------------------------ the bounded tail

  /** The first character boundary at or after `i`. */
  function FirstBoundary(s: seq<byte>, i: nat): (b: nat)
    requires i <= |s|
    ensures i <= b <= |s| && IsCharBoundary(s, b)
    ensures forall k :: i <= k < b ==> !IsCharBoundary(s, k)
    decreases |s| - i
  {
    if IsCharBoundary(s, i) then i else FirstBoundary(s, i + 1)
  }

  predicate Exceeds(s: seq<byte>, limit: Option<nat>) {
    limit.Some? && |s| > limit.value
  }

  function TailStart(s: seq<byte>, limit: Option<nat>): (k: nat)
    ensures k <= |s|
  {
    if Exceeds(s, limit) then FirstBoundary(s, |s| - limit.value) else 0
  }

  /** What a terminal with this limit shows after `s` has been written to it. */
  function BoundedTail(s: seq<byte>, limit: Option<nat>): seq<byte> {
    s[TailStart(s, limit)..]
  }

  lemma {:induction false} BoundaryNearby(s: seq<byte>, i: nat) returns (b: nat)
    requires WellFormed(s) && i <= |s|
    ensures i <= b <= i + 3 && b <= |s| && IsCharBoundary(s, b)
    decreases |s|
  {
    if i == 0 {
      b := 0;
    } else {
      var n := CharLen(s);
      LeadThenTails(s[n..]);
      b := n;
      if i > n {
        var later := BoundaryNearby(s[n..], i - n);
        b := n + later;
        assert later < |s[n..]| ==> s[n..][later] == s[b];
      }
    }
  }

  /** In well-formed text a boundary is never more than three bytes away. */
  lemma BoundaryWithinThree(s: seq<byte>, i: nat)
    requires WellFormed(s) && i <= |s|
    ensures FirstBoundary(s, i) <= i + 3
  {
    var b := BoundaryNearby(s, i);
    assert !(i <= b < FirstBoundary(s, i));
  }

  /** `BoundedTail` really is the longest suffix that starts on a character and fits the limit; it is
      well-formed, and when something was cut it still keeps all but three bytes of the allowance. */
  lemma BoundedTailIsLongest(s: seq<byte>, limit: Option<nat>)
    requires WellFormed(s)
    ensures WellFormed(BoundedTail(s, limit))
    ensures limit.Some? ==> |BoundedTail(s, limit)| <= limit.value
    ensures Exceeds(s, limit) ==> |BoundedTail(s, limit)| >= limit.value - 3
    ensures forall k: nat :: k <= |s| && WellFormed(s[k..]) && (limit.Some? ==> |s| - k <= limit.value)
                             ==> k >= TailStart(s, limit)
  {
    BoundaryIsSplit(s, TailStart(s, limit));
    if Exceeds(s, limit) {
      BoundaryWithinThree(s, |s| - limit.value);
      forall k: nat | k <= |s| && WellFormed(s[k..]) && |s| - k <= limit.value ensures k >= TailStart(s, limit) {
        BoundaryIsSplit(s, k);
      }
    }
  }

  /** Trimming early changes nothing: a tail of a tail plus more is the tail of everything. */
  lemma TailAbsorbs(a: seq<byte>, b: seq<byte>, limit: Option<nat>)
    requires WellFormed(a) && WellFormed(b)
    ensures BoundedTail(BoundedTail(a, limit) + b, limit) == BoundedTail(a + b, limit)
  {
    if Exceeds(a, limit) {
      var k := TailStart(a, limit);
      var whole, short := a + b, a[k..] + b;
      assert short == whole[k..];
      LeadThenTails(b);
      assert forall j: nat :: j <= |a| ==> IsCharBoundary(whole, j) == IsCharBoundary(a, j);
      assert forall j: nat :: 0 < j <= |short| ==> IsCharBoundary(short, j) == IsCharBoundary(whole, j + k);
      var start := TailStart(whole, limit);
      assert k <= start;
      if Exceeds(short, limit) {
        assert IsCharBoundary(whole, TailStart(short, limit) + k);
        assert IsCharBoundary(short, start - k);
        assert TailStart(short, limit) + k == start;
      } else {
        assert start == k;
      }
    } else {
      assert BoundedTail(a, limit) == a;
    }
  }

  /** Trimming after every append is trimming once at the end, for any list of chunks. */
  lemma {:induction false} TrimmingEachTimeIsTrimmingOnce(chunks: seq<seq<byte>>, limit: Option<nat>)
    requires forall c :: c in chunks ==> WellFormed(c)
    ensures TrimEach(chunks, limit) == (BoundedTail(Concat(chunks), limit), Exceeds(Concat(chunks), limit))
  {
    if chunks != [] {
      var init, last := chunks[..|chunks| - 1], chunks[|chunks| - 1];
      TrimmingEachTimeIsTrimmingOnce(init, limit);
      ConcatWellFormed(init);
      TailAbsorbs(Concat(init), last, limit);
    }
  }

  /** The buffer contents and the `truncated` flag after appending and trimming chunk by chunk. */
  function TrimEach(chunks: seq<seq<byte>>, limit: Option<nat>): (seq<byte>, bool) {
    if chunks == [] then ([], false)
    else
      var (output, truncated) := TrimEach(chunks[..|chunks| - 1], limit);
      var grown := output + chunks[|chunks| - 1];
      (BoundedTail(grown, limit), truncated || Exceeds(grown, limit))
  }

  class ManagedTerminal {
    var output: seq<byte>
    var truncated: bool
    const outputLimit: Option<nat>
    ghost var chunks: seq<seq<byte>>  // every chunk ever appended

    ghost predicate Valid()
      reads this
    {
      && (forall c :: c in chunks ==> WellFormed(c))
      && output == BoundedTail(Concat(chunks), outputLimit)
      && truncated == Exceeds(Concat(chunks), outputLimit)
    }

    constructor (limit: Option<nat>)
      ensures Valid() && chunks == [] && outputLimit == limit
    {
      output, truncated, outputLimit, chunks := [], false, limit, [];
    }

    /** `append_terminal_output`: push, then drop whole characters from the front until the limit holds. */
    method Append(chunk: seq<byte>)
      requires Valid() && WellFormed(chunk)
      modifies this
      ensures Valid() && chunks == old(chunks) + [chunk]
    {
      ghost var before := Concat(chunks);
      ConcatWellFormed(chunks);
      output := output + chunk;
      ghost var grown := output;
      if outputLimit.Some? && |output| > outputLimit.value {
        var trimAt := |output| - outputLimit.value;
        while trimAt < |output| && !IsCharBoundary(output, trimAt)
          invariant |output| - outputLimit.value <= trimAt <= |output|
          invariant FirstBoundary(output, trimAt) == FirstBoundary(output, |output| - outputLimit.value)
        {
          trimAt := trimAt + 1;
        }
        output := output[trimAt..];
        truncated := true;
      }
      assert output == BoundedTail(grown, outputLimit);
      TailAbsorbs(before, chunk, outputLimit);
      ConcatAppend(chunks, chunk);
      chunks := chunks + [chunk];
    }
  }

  // ------------------------------------------------------------------ the incremental decoder

  /** One result of `reader.read`; a run of reads that simply stops has reached the end of the stream. */
  datatype Read = Data(bytes: seq<byte>) | Failed

  /** The bytes a drain loop gets to see: those before the first empty or failed read. */
  function Received(results: seq<Read>): seq<byte> {
    if results == [] then []
    else
      var init, last := results[..|results| - 1], results[|results| - 1];
      Received(init) + if Stopped(init) || Ends(last) then [] else last.bytes
  }

  /** A read that ends the loop. */
  predicate Ends(r: Read) {
    r.Failed? || r.bytes == []
  }

  predicate Stopped(results: seq<Read>) {
    exists i :: 0 <= i < |results| && Ends(results[i])
  }

  /** A drain loop between two reads: what it has appended so far, and the bytes it carries over. */
  datatype Decoder = Decoder(chunks: seq<seq<byte>>, leftover: seq<byte>)

  /** `String::from_utf8_lossy` is known here only to return text. */
  ghost predicate ReturnsText(lossy: seq<byte> -> seq<byte>) {
    forall s :: WellFormed(lossy(s))
  }

  /** The chunks one iteration of the loop appends, given the carried bytes and the new ones together. */
  function Emitted(data: seq<byte>, lossy: seq<byte> -> seq<byte>): seq<seq<byte>> {
    var valid := ValidUpTo(data);
    (if valid > 0 then [data[..valid]] else []) + if |data| - valid >= 4 then [lossy(data[valid..])] else []
  }

  /** The bytes it carries over to the next. */
  function Carried(data: seq<byte>): seq<byte> {
    var remaining := data[ValidUpTo(data)..];
    if |remaining| >= 4 then [] else remaining
  }

  function Decode(d: Decoder, bytes: seq<byte>, lossy: seq<byte> -> seq<byte>): Decoder {
    Decoder(d.chunks + Emitted(d.leftover + bytes, lossy), Carried(d.leftover + bytes))
  }

  function Process(results: seq<Read>, lossy: seq<byte> -> seq<byte>): Decoder {
    if results == [] then Decoder([], [])
    else
      var init, last := results[..|results| - 1], results[|results| - 1];
      var d := Process(init, lossy);
      if Stopped(init) || Ends(last) then d else Decode(d, last.bytes, lossy)
  }

  function Flush(d: Decoder, lossy: seq<byte> -> seq<byte>): seq<seq<byte>> {
    d.chunks + if d.leftover == [] then [] else [lossy(d.leftover)]
  }

  /** Everything one drain task appends over its whole life. */
  function Drained(results: seq<Read>, lossy: seq<byte> -> seq<byte>): seq<seq<byte>> {
    Flush(Process(results, lossy), lossy)
  }

  /** `drain_terminal_stream` */
  method Drain(results: seq<Read>, terminal: ManagedTerminal, lossy: seq<byte> -> seq<byte>)
    requires terminal.Valid() && ReturnsText(lossy)
    modifies terminal
    ensures terminal.Valid() && terminal.chunks == old(terminal.chunks) + Drained(results, lossy)
  {
    var leftover: seq<byte> := [];
    var i := 0;
    ghost var before := terminal.chunks;
    ghost var d := Decoder([], []);
    while i < |results| && !Ends(results[i])
      invariant i <= |results| && !Stopped(results[..i])
      invariant terminal.Valid()
      invariant d == Process(results[..i], lossy)
      invariant terminal.chunks == before + d.chunks && leftover == d.leftover
    {
      ProcessNext(results, i, lossy);
      Regroup(before, d.chunks, Emitted(leftover + results[i].bytes, lossy));
      d := Decode(d, results[i].bytes, lossy);
      leftover := DrainOne(leftover, results[i].bytes, terminal, lossy);
      i := i + 1;
    }
    ProcessStops(results, i, lossy);
    if leftover != [] {
      Regroup(before, d.chunks, [lossy(leftover)]);
      terminal.Append(lossy(leftover));
    }
  }

  /** The body of its loop, for a read that returned something. */
  method DrainOne(leftover: seq<byte>, bytes: seq<byte>, terminal: ManagedTerminal, lossy: seq<byte> -> seq<byte>)
    returns (carried: seq<byte>)
    requires terminal.Valid() && ReturnsText(lossy)
    modifies terminal
    ensures terminal.Valid() && terminal.chunks == old(terminal.chunks) + Emitted(leftover + bytes, lossy)
    ensures carried == Carried(leftover + bytes)
  {
    var data := leftover + bytes;
    var validLen := ValidUpTo(data);
    ghost var before := terminal.chunks;
    ghost var text := if validLen > 0 then [data[..validLen]] else [];
    if validLen > 0 {
      ValidPrefix(data);
      terminal.Append(data[..validLen]);
    }
    assert terminal.chunks == before + text;
    var remaining := data[validLen..];
    if |remaining| >= 4 {
      terminal.Append(lossy(remaining));
      carried := [];
      assert before + text + [lossy(remaining)] == before + Emitted(data, lossy);
    } else {
      carried := remaining;
      assert text == Emitted(data, lossy);
    }
  }

  lemma ProcessAppend(got: seq<Read>, last: Read, lossy: seq<byte> -> seq<byte>)
    requires !Stopped(got)
    ensures Process(got + [last], lossy) == if Ends(last) then Process(got, lossy) else Decode(Process(got, lossy), last.bytes, lossy)
    ensures Stopped(got + [last]) <==> Ends(last)
  {
    var all := got + [last];
    assert all[..|got|] == got && all[|got|] == last;
    assert forall i :: 0 <= i < |got| ==> all[i] == got[i];
  }

  lemma ProcessNext(results: seq<Read>, i: nat, lossy: seq<byte> -> seq<byte>)
    requires i < |results| && !Stopped(results[..i]) && !Ends(results[i])
    ensures Process(results[..i + 1], lossy) == Decode(Process(results[..i], lossy), results[i].bytes, lossy)
    ensures !Stopped(results[..i + 1])
  {
    assert results[..i + 1][..i] == results[..i];
  }

  /** Reads after an empty or failed one are never looked at. */
  lemma {:induction false} ProcessStops(results: seq<Read>, i: nat, lossy: seq<byte> -> seq<byte>)
    requires i <= |results|
    requires i == |results| || Ends(results[i])
    ensures Process(results, lossy) == Process(results[..i], lossy)
    decreases |results|
  {
    if i < |results| {
      var init := results[..|results| - 1];
      assert init[..i] == results[..i];
      if i < |init| {
        assert init[i] == results[i];
      }
      ProcessStops(init, i, lossy);
    } else {
      assert results[..i] == results;
    }
  }

  /** An empty read and a failed one both end the stream: whatever the reader would have returned after it makes no
      difference. */
  lemma NothingAfterTheEnd(results: seq<Read>, more: seq<Read>, lossy: seq<byte> -> seq<byte>)
    ensures Drained(results + ([Data([])] + more), lossy) == Drained(results, lossy)
    ensures Drained(results + ([Failed] + more), lossy) == Drained(results, lossy)
    ensures Received(results + ([Data([])] + more)) == Received(results + ([Failed] + more)) == Received(results)
  {
    EndsThere(results, Data([]), more, lossy);
    EndsThere(results, Failed, more, lossy);
  }

  lemma EndsThere(results: seq<Read>, end: Read, more: seq<Read>, lossy: seq<byte> -> seq<byte>)
    requires Ends(end)
    ensures Process(results + ([end] + more), lossy) == Process(results, lossy)
    ensures Received(results + ([end] + more)) == Received(results)
  {
    var all := results + ([end] + more);
    assert all[|results|] == end && all[..|results|] == results;
    ProcessStops(all, |results|, lossy);
    ReceivedStops(all, |results|);
  }

  lemma {:induction false} ReceivedStops(results: seq<Read>, i: nat)
    requires i < |results| && Ends(results[i])
    ensures Received(results) == Received(results[..i])
    decreases |results|
  {
    var init := results[..|results| - 1];
    assert init[..i] == results[..i];
    if i < |init| {
      assert init[i] == results[i];
      ReceivedStops(init, i);
    }
  }

  /** What holds between any two reads, on any input: the carried bytes are at most three and start no
      character, every chunk is text, the longest well-formed prefix of the stream so far has been appended
      untouched, and unless a fourth undecodable byte showed up, nothing at all has been lost. */
  ghost predicate DecoderInv(d: Decoder, seen: seq<byte>) {
    && |d.leftover| <= 3 && CharLen(d.leftover) == 0
    && (forall c :: c in d.chunks ==> WellFormed(c))
    && seen[..ValidUpTo(seen)] <= Concat(d.chunks)
    && (Concat(d.chunks) + d.leftover == seen || |seen| - ValidUpTo(seen) >= 4)
  }

  lemma {:induction false} DecoderInvariant(results: seq<Read>, lossy: seq<byte> -> seq<byte>)
    requires ReturnsText(lossy)
    ensures DecoderInv(Process(results, lossy), Received(results))
  {
    if results != [] {
      var init, last := results[..|results| - 1], results[|results| - 1];
      DecoderInvariant(init, lossy);
      if !(Stopped(init) || Ends(last)) {
        DecodeStep(Process(init, lossy), Received(init), last.bytes, lossy);
      } else {
        assert Received(results) == Received(init);
      }
    }
  }

  lemma OneOrNone(text: seq<byte>, parts: seq<seq<byte>>)
    requires parts == if text == [] then [] else [text]
    ensures Concat(parts) == text
  {
    if parts != [] {
      assert parts[..0] == [];
    }
  }

  lemma EmittedExactly(data: seq<byte>, lossy: seq<byte> -> seq<byte>)
    ensures var v := ValidUpTo(data);
            Concat(Emitted(data, lossy)) == data[..v] + if |data| - v >= 4 then lossy(data[v..]) else []
  {
    var v := ValidUpTo(data);
    var head := if v > 0 then [data[..v]] else [];
    OneOrNone(data[..v], head);
    if |data| - v >= 4 {
      ConcatAppend(head, lossy(data[v..]));
    } else {
      assert Emitted(data, lossy) == head && data[..v] + [] == data[..v];
    }
  }

  lemma EmittedIsText(data: seq<byte>, lossy: seq<byte> -> seq<byte>)
    requires ReturnsText(lossy)
    ensures forall c :: c in Emitted(data, lossy) ==> WellFormed(c)
    ensures data[..ValidUpTo(data)] <= Concat(Emitted(data, lossy))
    ensures |data| - ValidUpTo(data) < 4 ==> Concat(Emitted(data, lossy)) == data[..ValidUpTo(data)]
    ensures |Carried(data)| <= 3 && CharLen(Carried(data)) == 0
  {
    var v := ValidUpTo(data);
    assert WellFormed(data[..v]) && CharLen(data[v..]) == 0 by {
      ValidPrefix(data);
    }
    EachIsText(data[..v], lossy(data[v..]), Emitted(data, lossy));
    EmittedExactly(data, lossy);
    assert data[..v] + [] == data[..v];
  }

  lemma EachIsText(front: seq<byte>, back: seq<byte>, parts: seq<seq<byte>>)
    requires WellFormed(front) && WellFormed(back) && forall c :: c in parts ==> c == front || c == back
    ensures forall c :: c in parts ==> WellFormed(c)
  {
  }

  lemma DecodeStep(d: Decoder, seen: seq<byte>, bytes: seq<byte>, lossy: seq<byte> -> seq<byte>)
    requires ReturnsText(lossy) && DecoderInv(d, seen)
    ensures DecoderInv(Decode(d, bytes, lossy), seen + bytes)
  {
    var data := d.leftover + bytes;
    EmittedIsText(data, lossy);
    ConcatConcat(d.chunks, Emitted(data, lossy));
    DecodedOutput(d, seen, bytes, Concat(Emitted(data, lossy)));
  }

  /** What one iteration does to the output, given the text `more` it appends. */
  lemma DecodedOutput(d: Decoder, seen: seq<byte>, bytes: seq<byte>, more: seq<byte>)
    requires DecoderInv(d, seen)
    requires var data := d.leftover + bytes;
             && data[..ValidUpTo(data)] <= more
             && (|data| - ValidUpTo(data) < 4 ==> more == data[..ValidUpTo(data)])
    ensures var out, all := Concat(d.chunks) + more, seen + bytes;
            && all[..ValidUpTo(all)] <= out
            && (out + Carried(d.leftover + bytes) == all || |all| - ValidUpTo(all) >= 4)
  {
    var out, data := Concat(d.chunks), d.leftover + bytes;
    if out + d.leftover == seen {
      ConcatWellFormed(d.chunks);
      assert seen + bytes == out + data;
      StillCopying(out, data, seen + bytes, more);
      if |data| - ValidUpTo(data) < 4 {
        Rejoin(out, d.leftover, bytes, more, Carried(data));
      }
    } else {
      AlreadyLost(seen, bytes, out, more);
    }
  }

  lemma StillCopying(out: seq<byte>, data: seq<byte>, seen: seq<byte>, more: seq<byte>)
    requires WellFormed(out) && seen == out + data
    requires data[..ValidUpTo(data)] <= more
    requires |data| - ValidUpTo(data) < 4 ==> more == data[..ValidUpTo(data)]
    ensures ValidUpTo(seen) == |out| + ValidUpTo(data)
    ensures seen[..ValidUpTo(seen)] <= out + more
    ensures |data| - ValidUpTo(data) < 4 ==> more + Carried(data) == data
  {
    var v := ValidUpTo(data);
    assert ValidUpTo(seen) == |out| + v by {
      ValidUpToConcat(out, data);
    }
    CopiedSoFar(out, data, seen, more, v);
  }

  lemma CopiedSoFar(out: seq<byte>, data: seq<byte>, seen: seq<byte>, more: seq<byte>, v: nat)
    requires seen == out + data && v <= |data| && data[..v] <= more
    ensures seen[..|out| + v] <= out + more
    ensures more == data[..v] ==> more + data[v..] == data
  {
    assert seen[..|out| + v] == out + data[..v];
  }

  lemma Rejoin(out: seq<byte>, left: seq<byte>, bytes: seq<byte>, more: seq<byte>, carried: seq<byte>)
    requires more + carried == left + bytes
    ensures out + more + carried == out + left + bytes
  {
    assert out + more + carried == out + (more + carried);
  }

  lemma AlreadyLost(seen: seq<byte>, bytes: seq<byte>, out: seq<byte>, more: seq<byte>)
    requires |seen| - ValidUpTo(seen) >= 4 && seen[..ValidUpTo(seen)] <= out
    ensures ValidUpTo(seen + bytes) == ValidUpTo(seen)
    ensures (seen + bytes)[..ValidUpTo(seen)] <= out + more
  {
    var w := ValidUpTo(seen);
    ValidPrefix(seen);
    PrefixCode(seen[w..], bytes);
    assert seen + bytes == seen[..w] + (seen[w..] + bytes);
    ValidUpToConcat(seen[..w], seen[w..] + bytes);
    assert (seen + bytes)[..w] == seen[..w];
  }

  /** Chunk independence on well-formed streams: however the reads split it, the appended chunks spell
      exactly the stream, and nothing is left over for the lossy decoder. */
  lemma WellFormedStreamIsCopied(results: seq<Read>, lossy: seq<byte> -> seq<byte>)
    requires ReturnsText(lossy) && WellFormed(Received(results))
    ensures Process(results, lossy).leftover == []
    ensures Concat(Drained(results, lossy)) == Received(results)
  {
    DecoderInvariant(results, lossy);
    var d := Process(results, lossy);
    ConcatWellFormed(d.chunks);
    ValidUpToConcat(Concat(d.chunks), d.leftover);
    assert Drained(results, lossy) == d.chunks;
  }

  /** On any stream, however it is split, all that is appended is text, and it starts with the longest
      well-formed prefix of the stream. */
  lemma AnyStreamKeepsItsPrefix(results: seq<Read>, lossy: seq<byte> -> seq<byte>)
    requires ReturnsText(lossy)
    ensures forall c :: c in Drained(results, lossy) ==> WellFormed(c)
    ensures Received(results)[..ValidUpTo(Received(results))] <= Concat(Drained(results, lossy))
  {
    DecoderInvariant(results, lossy);
    var d := Process(results, lossy);
    if d.leftover != [] {
      ConcatAppend(d.chunks, lossy(d.leftover));
    } else {
      assert Drained(results, lossy) == d.chunks;
    }
  }
}
