/** When the way the reads split a terminal's stream shows in its output. */
module ReadSplitting {
  import opened Utf8
  import opened Terminal
  import opened Sequences

  /** How much of a stream lies beyond its longest well-formed prefix. */
  function Undecoded(s: seq<byte>): nat {
    |s| - ValidUpTo(s)
  }

  /** Reading on never makes a stream more decodable once four bytes have failed. */
  lemma UndecodedGrows(seen: seq<byte>, bytes: seq<byte>)
    requires Undecoded(seen) >= 4
    ensures ValidUpTo(seen + bytes) == ValidUpTo(seen)
  {
    AlreadyLost(seen, bytes, seen, bytes);
  }

  lemma NextValid(seen: seq<byte>, v: nat, bytes: seq<byte>)
    requires v == ValidUpTo(seen)
    ensures ValidUpTo(seen + bytes) == v + ValidUpTo(seen[v..] + bytes)
  {
    var front, rest := seen[..v], seen[v..];
    assert WellFormed(front) by {
      ValidPrefix(seen);
    }
    Resumed(front, rest, bytes);
    assert front + rest == seen;
  }

  lemma Resumed(front: seq<byte>, rest: seq<byte>, bytes: seq<byte>)
    requires WellFormed(front)
    ensures ValidUpTo(front + rest + bytes) == |front| + ValidUpTo(rest + bytes)
  {
    Regroup(front, rest, bytes);
    ValidUpToConcat(front, rest + bytes);
  }

  lemma ExactOutput(chunks: seq<seq<byte>>, front: seq<byte>, data: seq<byte>, w: nat, lossy: seq<byte> -> seq<byte>)
    requires Concat(chunks) == front && w == ValidUpTo(data)
    ensures Concat(chunks + Emitted(data, lossy)) ==
            (front + data)[..|front| + w] + if |data| - w >= 4 then lossy(data[w..]) else []
    ensures (front + data)[|front| + w..] == data[w..]
  {
    EmittedExactly(data, lossy);
    ConcatConcat(chunks, Emitted(data, lossy));
    PiecesOf(front + data, front, data, w);
    Regroup(front, data[..w], if |data| - w >= 4 then lossy(data[w..]) else []);
  }

  /** The output and the carried bytes, with all decodable bytes and then the rest together. */
  ghost predicate ExactUpTo(d: Decoder, seen: seq<byte>, v: nat, lossy: seq<byte> -> seq<byte>)
    requires v <= |seen|
  {
    if |seen| - v < 4 then Concat(d.chunks) == seen[..v] && d.leftover == seen[v..]
    else Concat(d.chunks) == seen[..v] + lossy(seen[v..]) && d.leftover == []
  }

  /** A loop that has met at most four undecodable bytes: it carries them, or has flushed exactly these four. */
  ghost predicate ExactSoFar(d: Decoder, seen: seq<byte>, lossy: seq<byte> -> seq<byte>) {
    Undecoded(seen) <= 4 ==> ExactUpTo(d, seen, ValidUpTo(seen), lossy)
  }

  lemma DecodesExactly(d: Decoder, seen: seq<byte>, v: nat, bytes: seq<byte>, w: nat, lossy: seq<byte> -> seq<byte>)
    requires v <= |seen| && |seen| - v < 4 && ExactUpTo(d, seen, v, lossy)
    requires w == ValidUpTo(d.leftover + bytes)
    ensures v + w <= |seen + bytes| && ExactUpTo(Decode(d, bytes, lossy), seen + bytes, v + w, lossy)
  {
    var data, all := d.leftover + bytes, seen + bytes;
    assert all == seen[..v] + data;
    ExactOutput(d.chunks, seen[..v], data, w, lossy);
    assert all[..v + w] + [] == all[..v + w];
  }

  lemma ExactStep(d: Decoder, seen: seq<byte>, bytes: seq<byte>, lossy: seq<byte> -> seq<byte>)
    requires ExactSoFar(d, seen, lossy) && bytes != []
    ensures ExactSoFar(Decode(d, bytes, lossy), seen + bytes, lossy)
  {
    if Undecoded(seen) >= 4 {
      UndecodedGrows(seen, bytes);
      assert Undecoded(seen + bytes) > 4;
    } else {
      var v, w := ValidUpTo(seen), ValidUpTo(d.leftover + bytes);
      DecodesExactly(d, seen, v, bytes, w, lossy);
      NextValid(seen, v, bytes);
    }
  }

  lemma PiecesOf(all: seq<byte>, front: seq<byte>, data: seq<byte>, k: nat)
    requires all == front + data && k <= |data|
    ensures all[..|front| + k] == front + data[..k] && all[|front| + k..] == data[k..]
  {
  }

  lemma {:induction false} ExactWhileShort(results: seq<Read>, lossy: seq<byte> -> seq<byte>)
    ensures ExactSoFar(Process(results, lossy), Received(results), lossy)
  {
    if results != [] {
      var init, last := results[..|results| - 1], results[|results| - 1];
      ExactWhileShort(init, lossy);
      if !(Stopped(init) || Ends(last)) {
        ExactStep(Process(init, lossy), Received(init), last.bytes, lossy);
      } else {
        assert Received(results) == Received(init);
      }
    }
  }

  /** Up to four undecodable bytes the output is a function of the stream alone. */
  lemma ShortErrorsAreExact(results: seq<Read>, lossy: seq<byte> -> seq<byte>)
    requires Undecoded(Received(results)) <= 4
    ensures var s := Received(results);
            var v := ValidUpTo(s);
            Concat(Drained(results, lossy)) == s[..v] + if v == |s| then [] else lossy(s[v..])
  {
    ExactWhileShort(results, lossy);
    var d := Process(results, lossy);
    if d.leftover != [] {
      ConcatAppend(d.chunks, lossy(d.leftover));
    } else {
      assert Drained(results, lossy) == d.chunks;
    }
  }

  /** Any two ways to split the stream give the same output, whatever text the lossy decoder returns. */
  ghost predicate SplittingNeverShows(s: seq<byte>) {
    forall r1, r2, lossy: seq<byte> -> seq<byte> ::
      ReturnsText(lossy) && Received(r1) == s && Received(r2) == s ==>
        Concat(Drained(r1, lossy)) == Concat(Drained(r2, lossy))
  }

  /** A stream can be read in any portions without a difference exactly if at most four bytes of it lie beyond its
      longest well-formed prefix: that is where the `remaining.len() >= 4` guard hands bytes to the lossy decoder
      without waiting for the rest. */
  lemma SplittingNeverShowsIff(s: seq<byte>)
    ensures SplittingNeverShows(s) <==> Undecoded(s) <= 4
  {
    if Undecoded(s) <= 4 {
      forall r1, r2, lossy: seq<byte> -> seq<byte> | ReturnsText(lossy) && Received(r1) == s && Received(r2) == s
        ensures Concat(Drained(r1, lossy)) == Concat(Drained(r2, lossy))
      {
        ShortErrorsAreExact(r1, lossy);
        ShortErrorsAreExact(r2, lossy);
      }
    } else {
      var r1, r2, lossy := SplittingShows(s);
    }
  }

  /** A decoder that answers differently to one particular text. */
  function TellsWhole(whole: seq<byte>): seq<byte> -> seq<byte> {
    s => if s == whole then [] else [0x41]
  }

  lemma TellsWholeReturnsText(whole: seq<byte>)
    ensures ReturnsText(TellsWhole(whole))
  {
    var none: seq<byte>, letter: seq<byte> := [], [0x41];
    assert CharLen(letter) == 1 && letter[1..] == none;
    assert WellFormed(none) && WellFormed(letter);
  }

  lemma SplittingShows(s: seq<byte>) returns (r1: seq<Read>, r2: seq<Read>, lossy: seq<byte> -> seq<byte>)
    requires Undecoded(s) > 4
    ensures ReturnsText(lossy) && Received(r1) == s && Received(r2) == s
    ensures Concat(Drained(r1, lossy)) != Concat(Drained(r2, lossy))
  {
    var v := ValidUpTo(s);
    lossy := TellsWhole(s[v..]);
    TellsWholeReturnsText(s[v..]);
    r1, r2 := [Data(s)], [Data(s[..v + 4]), Data(s[v + 4..])];
    ReadWhole(s, v, lossy);
    ReadInTwo(s, v, r2, lossy);
    assert |Concat(Drained(r1, lossy))| == v;
    assert |lossy(s[v..v + 4])| == 1;
  }

  lemma OneRead(a: seq<byte>, lossy: seq<byte> -> seq<byte>)
    requires a != []
    ensures Process([Data(a)], lossy) == Decoder(Emitted(a, lossy), Carried(a)) && Received([Data(a)]) == a
    ensures !Stopped([Data(a)])
  {
    var one, none: seq<Read> := [Data(a)], [];
    assert one[..0] == none && !Stopped(none);
    assert Process(none, lossy) == Decoder([], []) && Received(none) == [];
    assert [] + a == a && [] + Emitted(a, lossy) == Emitted(a, lossy);
  }

  lemma ReadWhole(s: seq<byte>, v: nat, lossy: seq<byte> -> seq<byte>)
    requires v == ValidUpTo(s) && Undecoded(s) > 4
    ensures Received([Data(s)]) == s
    ensures Concat(Drained([Data(s)], lossy)) == s[..v] + lossy(s[v..])
  {
    OneRead(s, lossy);
    EmittedExactly(s, lossy);
    assert Drained([Data(s)], lossy) == Emitted(s, lossy);
  }

  lemma ReadInTwo(s: seq<byte>, v: nat, parts: seq<Read>, lossy: seq<byte> -> seq<byte>)
    requires v == ValidUpTo(s) && Undecoded(s) > 4
    requires parts == [Data(s[..v + 4]), Data(s[v + 4..])]
    ensures Received(parts) == s
    ensures s[..v] + lossy(s[v..v + 4]) <= Concat(Drained(parts, lossy))
  {
    var a, b := s[..v + 4], s[v + 4..];
    FourUndecoded(s, v, a);
    EmittedExactly(a, lossy);
    assert a[..v] == s[..v] && a[v..] == s[v..v + 4];
    TwoReads(a, b, parts, lossy);
    assert a + b == s;
    FlushKeeps(Decoder(Emitted(a, lossy), []), b, lossy);
  }

  lemma TwoReads(a: seq<byte>, b: seq<byte>, parts: seq<Read>, lossy: seq<byte> -> seq<byte>)
    requires a != [] && b != [] && Carried(a) == [] && parts == [Data(a), Data(b)]
    ensures Received(parts) == a + b
    ensures Process(parts, lossy) == Decode(Decoder(Emitted(a, lossy), []), b, lossy)
  {
    OneRead(a, lossy);
    assert parts[..1] == [Data(a)];
  }

  lemma ConcatPrefix(a: seq<seq<byte>>, b: seq<seq<byte>>)
    ensures Concat(a) <= Concat(a + b)
  {
    ConcatConcat(a, b);
  }

  lemma FlushKeeps(d: Decoder, bytes: seq<byte>, lossy: seq<byte> -> seq<byte>)
    ensures Concat(d.chunks) <= Concat(Flush(Decode(d, bytes, lossy), lossy))
  {
    var more, left := Emitted(d.leftover + bytes, lossy), Carried(d.leftover + bytes);
    var last := if left == [] then [] else [lossy(left)];
    Regroup(d.chunks, more, last);
    ConcatPrefix(d.chunks, more + last);
  }

  lemma FourUndecoded(s: seq<byte>, v: nat, a: seq<byte>)
    requires v == ValidUpTo(s) && Undecoded(s) > 4 && a == s[..v + 4]
    ensures ValidUpTo(a) == v
  {
    ValidPrefix(s);
    var four := s[v..v + 4];
    PrefixCode(four, s[v + 4..]);
    assert s[v..] == four + s[v + 4..];
    assert a == s[..v] + four;
    ValidUpToConcat(s[..v], four);
  }

  const ERROR_THEN_LEAD: seq<byte> := [0xFF, 0x41, 0x42, 0xC3]
  const LAST_BYTE: seq<byte> := [0xA9]

  /** The decoder in use is one that tells: it keeps the last character of FF 41 42 C3 A9 only if it sees it whole. */
  lemma SplitAfterErrorLosesCharacter(lossy: seq<byte> -> seq<byte>)
    requires lossy(ERROR_THEN_LEAD + LAST_BYTE) == [0xEF, 0xBF, 0xBD, 0x41, 0x42, 0xC3, 0xA9]
    requires lossy(ERROR_THEN_LEAD) == [0xEF, 0xBF, 0xBD, 0x41, 0x42, 0xEF, 0xBF, 0xBD]
    ensures Received([Data(ERROR_THEN_LEAD + LAST_BYTE)]) == Received([Data(ERROR_THEN_LEAD), Data(LAST_BYTE)])
    ensures Concat(Drained([Data(ERROR_THEN_LEAD + LAST_BYTE)], lossy))
            != Concat(Drained([Data(ERROR_THEN_LEAD), Data(LAST_BYTE)], lossy))
  {
    var s := ERROR_THEN_LEAD + LAST_BYTE;
    assert CharLen(s) == 0 && s[..4] == ERROR_THEN_LEAD && s[4..] == LAST_BYTE;
    OutputsDiffer(s, [Data(ERROR_THEN_LEAD), Data(LAST_BYTE)], lossy, 5);
  }

  lemma OutputsDiffer(s: seq<byte>, parts: seq<Read>, lossy: seq<byte> -> seq<byte>, k: nat)
    requires |s| > 4 && ValidUpTo(s) == 0 && parts == [Data(s[..4]), Data(s[4..])]
    requires k < |lossy(s)| && k < |lossy(s[..4])| && lossy(s)[k] != lossy(s[..4])[k]
    ensures Received([Data(s)]) == Received(parts)
    ensures Concat(Drained([Data(s)], lossy)) != Concat(Drained(parts, lossy))
  {
    ReadWhole(s, 0, lossy);
    ReadInTwo(s, 0, parts, lossy);
    assert s[0..] == s && s[0..4] == s[..4];
    Differ(s[..0], lossy(s), lossy(s[..4]), Concat(Drained(parts, lossy)), k);
  }

  lemma Differ(none: seq<byte>, a: seq<byte>, b: seq<byte>, out: seq<byte>, k: nat)
    requires none == [] && none + b <= out && k < |a| && k < |b| && a[k] != b[k]
    ensures none + a != out
  {
    assert (none + a)[k] == a[k] && (none + b)[k] == b[k] && out[k] == b[k];
  }
}
