/** What `trim` takes for white space, in terms of characters. */
module McpSpaces {
  import opened Utf8
  import opened Scalars
  import opened McpFraming

  /** The white space that `trim` takes off at the front is the encoding of one of these characters. */
  lemma LeadingSpaceIff(s: seq<byte>)
    ensures LeadingSpace(s) > 0 <==> exists c :: WhiteSpace(c) && Encode(c) <= s
    ensures forall c :: WhiteSpace(c) && Encode(c) <= s ==> LeadingSpace(s) == |Encode(c)|
  {
    forall c | WhiteSpace(c) && Encode(c) <= s ensures LeadingSpace(s) == |Encode(c)| {
      SpaceCode(c);
      var e := Encode(c);
      assert forall i :: 0 <= i < |e| ==> s[i] == e[i];
    }
    if LeadingSpace(s) > 0 {
      var n := LeadingSpace(s);
      var c := SpaceAt(s[..n]);
    }
  }

  /** And at the back. */
  lemma TrailingSpaceIff(s: seq<byte>)
    ensures TrailingSpace(s) > 0 <==> exists c :: WhiteSpace(c) && EndsWith(s, Encode(c))
    ensures forall c :: WhiteSpace(c) && EndsWith(s, Encode(c)) ==> TrailingSpace(s) == |Encode(c)|
  {
    forall c | WhiteSpace(c) && EndsWith(s, Encode(c)) ensures TrailingSpace(s) == |Encode(c)| {
      SpaceCode(c);
      SpaceAtEnd(s, Encode(c));
    }
    if TrailingSpace(s) > 0 {
      EndIsSpace(s, TrailingSpace(s));
      var c := SpaceAt(s[|s| - TrailingSpace(s)..]);
      assert EndsWith(s, Encode(c));
    }
  }

  lemma SpaceAtEnd(s: seq<byte>, e: seq<byte>)
    requires IsSpace(e) && EndsWith(s, e)
    ensures TrailingSpace(s) == |e|
  {
    var k := |s| - |e|;
    assert forall i :: 0 <= i < |e| ==> s[k + i] == e[i];
    assert s[|s| - 1] == e[|e| - 1];
    if |e| >= 2 {
      assert s[|s| - 2] == e[|e| - 2];
    }
    if |e| == 3 {
      assert s[|s| - 3] == e[0];
    }
  }

  lemma EndIsSpace(s: seq<byte>, n: nat)
    requires n == TrailingSpace(s) > 0
    ensures IsSpace(s[|s| - n..])
  {
  }

  predicate EndsWith(s: seq<byte>, e: seq<byte>) {
    |e| <= |s| && s[|s| - |e|..] == e
  }

  predicate IsSpace(e: seq<byte>) {
    || (|e| == 1 && Space1(e[0]))
    || (|e| == 2 && Space2(e[0], e[1]))
    || (|e| == 3 && Space3(e[0], e[1], e[2]))
  }

  lemma SpaceCode(c: int)
    requires WhiteSpace(c)
    ensures IsSpace(Encode(c))
  {
  }

  lemma SpaceAt(e: seq<byte>) returns (c: int)
    requires IsSpace(e)
    ensures WhiteSpace(c) && Encode(c) == e
  {
    c := if |e| == 1 then e[0] as int
         else if |e| == 2 then (e[0] as int - 0xC0) * 64 + (e[1] as int - 0x80)
         else (e[0] as int - 0xE0) * 4096 + (e[1] as int - 0x80) * 64 + (e[2] as int - 0x80);
  }
}
