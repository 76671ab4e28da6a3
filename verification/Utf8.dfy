/** Well-formed UTF-8 as section 4 of RFC 3629 defines it, together with the two facts the terminal
    pipeline lives on: the characters form a prefix code, and character boundaries can be recognised by
    looking at a single byte. */
module Utf8 {

  newtype byte = x: int | 0 <= x < 256

  /** `UTF8-tail` of the RFC's grammar. */
  predicate Tail(b: byte) {
    0x80 <= b <= 0xBF
  }

  /** The length of the `UTF8-char` that `s` starts with, or 0 when it starts with none. */
  function CharLen(s: seq<byte>): (n: nat)
    ensures n <= 4 && n <= |s|
  {
    if |s| >= 1 && s[0] <= 0x7F then 1
    else if |s| >= 2 && 0xC2 <= s[0] <= 0xDF && Tail(s[1]) then 2
    else if |s| >= 3 && Tail(s[2]) &&
            (|| (s[0] == 0xE0 && 0xA0 <= s[1] <= 0xBF)
             || (0xE1 <= s[0] <= 0xEC && Tail(s[1]))
             || (s[0] == 0xED && 0x80 <= s[1] <= 0x9F)
             || (0xEE <= s[0] <= 0xEF && Tail(s[1]))) then 3
    else if |s| >= 4 && Tail(s[2]) && Tail(s[3]) &&
            (|| (s[0] == 0xF0 && 0x90 <= s[1] <= 0xBF)
             || (0xF1 <= s[0] <= 0xF3 && Tail(s[1]))
             || (s[0] == 0xF4 && 0x80 <= s[1] <= 0x8F)) then 4
    else 0
  }

  /** How many leading bytes of `s` are characters: `Utf8Error::valid_up_to`, or `|s|` when there is no error. */
  function ValidUpTo(s: seq<byte>): (v: nat)
    ensures v <= |s|
    decreases |s|
  {
    var n := CharLen(s);
    if n == 0 then 0 else n + ValidUpTo(s[n..])
  }

  predicate WellFormed(s: seq<byte>) {
    ValidUpTo(s) == |s|
  }

  /** The concatenation of a list of byte strings. */
  function Concat(parts: seq<seq<byte>>): seq<byte> {
    if parts == [] then [] else Concat(parts[..|parts| - 1]) + parts[|parts| - 1]
  }

  /** `str::is_char_boundary`: decided by one byte, without decoding. */
  predicate IsCharBoundary(s: seq<byte>, i: nat)
    requires i <= |s|
  {
    i == 0 || i == |s| || !Tail(s[i])
  }

  /** Prefix code: appending bytes never changes a first character that is complete, and completes an
      incomplete one only by using bytes beyond the old end. */
  lemma PrefixCode(s: seq<byte>, t: seq<byte>)
    ensures CharLen(s) > 0 ==> CharLen(s + t) == CharLen(s)
    ensures CharLen(s) == 0 ==> CharLen(s + t) == 0 || CharLen(s + t) > |s|
  {
    forall i | 0 <= i < |s| ensures (s + t)[i] == s[i] {}
  }

  lemma LeadThenTails(s: seq<byte>)
    ensures CharLen(s) > 0 ==> !Tail(s[0])
    ensures forall i :: 0 < i < CharLen(s) ==> Tail(s[i])
  {
  }

  /** A well-formed prefix is passed over as a whole, whatever follows it. */
  lemma {:induction false} ValidUpToConcat(s: seq<byte>, t: seq<byte>)
    requires WellFormed(s)
    ensures ValidUpTo(s + t) == |s| + ValidUpTo(t)
    ensures WellFormed(s + t) <==> WellFormed(t)
    decreases |s|
  {
    if s == [] {
      assert s + t == t;
    } else {
      var n := CharLen(s);
      assert n > 0;
      PrefixCode(s, t);
      assert (s + t)[n..] == s[n..] + t;
      ValidUpToConcat(s[n..], t);
    }
  }

  /** Taking one character off the front. */
  lemma FirstCharacter(s: seq<byte>, k: nat)
    requires 0 < CharLen(s) <= k <= |s|
    ensures ValidUpTo(s[..k]) == CharLen(s) + ValidUpTo(s[CharLen(s)..][..k - CharLen(s)])
    ensures s[k..] == s[CharLen(s)..][k - CharLen(s)..]
  {
    var n := CharLen(s);
    var t := s[..k];
    assert t == s[..n] + s[n..k] && s == s[..n] + s[n..];
    PrefixCode(s[..n], s[n..]);
    PrefixCode(s[..n], s[n..k]);
    assert t[n..] == s[n..][..k - n];
  }

  lemma {:induction false} ValidPrefix(s: seq<byte>)
    ensures WellFormed(s[..ValidUpTo(s)])
    ensures CharLen(s[ValidUpTo(s)..]) == 0
    decreases |s|
  {
    var n := CharLen(s);
    if n == 0 {
      assert s[..0] == [] && s[ValidUpTo(s)..] == s;
    } else {
      ValidPrefix(s[n..]);
      FirstCharacter(s, ValidUpTo(s));
    }
  }

  /** `ValidUpTo` cuts off exactly the longest well-formed prefix. */
  lemma LongestWellFormedPrefix(s: seq<byte>)
    ensures WellFormed(s[..ValidUpTo(s)])
    ensures CharLen(s[ValidUpTo(s)..]) == 0
    ensures forall k: nat :: k <= |s| && WellFormed(s[..k]) ==> k <= ValidUpTo(s)
  {
    ValidPrefix(s);
    forall k: nat | k <= |s| && WellFormed(s[..k]) ensures k <= ValidUpTo(s) {
      PrefixIsCounted(s, k);
    }
  }

  lemma PrefixIsCounted(s: seq<byte>, k: nat)
    requires k <= |s| && WellFormed(s[..k])
    ensures k <= ValidUpTo(s)
  {
    assert s[..k] + s[k..] == s;
    ValidUpToConcat(s[..k], s[k..]);
  }

  /** Inside a character there is neither a boundary nor a split. */
  lemma NoSplitInside(s: seq<byte>, i: nat)
    requires 0 < i < CharLen(s)
    ensures Tail(s[i]) && !WellFormed(s[..i]) && !WellFormed(s[i..])
  {
    LeadThenTails(s);
    PrefixCode(s[..i], s[i..]);
    assert s[..i] + s[i..] == s;
    LeadThenTails(s[i..]);
  }

  /** Self-synchronisation: in well-formed text the one-byte test finds exactly the places where the text
      splits into two well-formed halves. */
  lemma {:induction false} BoundaryIsSplit(s: seq<byte>, i: nat)
    requires WellFormed(s) && i <= |s|
    ensures IsCharBoundary(s, i) <==> WellFormed(s[..i])
    ensures IsCharBoundary(s, i) <==> WellFormed(s[i..])
    decreases |s|
  {
    var n := CharLen(s);
    if i == 0 {
      assert s[..i] == [] && s[i..] == s;
    } else if i < n {
      NoSplitInside(s, i);
    } else {
      BoundaryIsSplit(s[n..], i - n);
      SplitBeyond(s, i);
    }
  }

  /** Beyond the first character, splits and boundaries are those of the rest. */
  lemma SplitBeyond(s: seq<byte>, i: nat)
    requires WellFormed(s) && s != [] && CharLen(s) <= i <= |s|
    ensures var n := CharLen(s);
            && (IsCharBoundary(s, i) <==> IsCharBoundary(s[n..], i - n))
            && (WellFormed(s[..i]) <==> WellFormed(s[n..][..i - n]))
            && s[i..] == s[n..][i - n..]
  {
    var n := CharLen(s);
    FirstCharacter(s, i);
    if n < i < |s| {
      assert s[i] == s[n..][i - n];
    } else if i == n < |s| {
      RestStartsCharacter(s);
      LeadThenTails(s[n..]);
      assert s[n..][0] == s[n];
    }
  }

  lemma RestStartsCharacter(s: seq<byte>)
    requires WellFormed(s) && s != [] && CharLen(s) < |s|
    ensures CharLen(s[CharLen(s)..]) > 0
  {
    var rest := s[CharLen(s)..];
    assert ValidUpTo(rest) == |rest|;
  }

  lemma {:induction false} ConcatAppend(parts: seq<seq<byte>>, last: seq<byte>)
    ensures Concat(parts + [last]) == Concat(parts) + last
  {
    assert (parts + [last])[..|parts|] == parts;
  }

  lemma {:induction false} ConcatConcat(a: seq<seq<byte>>, b: seq<seq<byte>>)
    ensures Concat(a + b) == Concat(a) + Concat(b)
    decreases |b|
  {
    if b == [] {
      assert a + b == a;
    } else {
      var init := b[..|b| - 1];
      ConcatConcat(a, init);
      assert (a + b)[..|a + b| - 1] == a + init;
    }
  }

  lemma {:induction false} ConcatWellFormed(parts: seq<seq<byte>>)
    requires forall p :: p in parts ==> WellFormed(p)
    ensures WellFormed(Concat(parts))
  {
    if parts != [] {
      ConcatWellFormed(parts[..|parts| - 1]);
      ValidUpToConcat(Concat(parts[..|parts| - 1]), parts[|parts| - 1]);
    }
  }

  /** The grammar itself, `UTF8-octets = *( UTF8-char )`: being well-formed means being a concatenation of
      characters. */
  lemma {:induction false} WellFormedIsGrammar(s: seq<byte>)
    ensures WellFormed(s) <==> exists cs :: Concat(cs) == s && forall c :: c in cs ==> CharLen(c) == |c| > 0
    decreases |s|
  {
    if WellFormed(s) {
      var cs := Characters(s);
      assert Concat(cs) == s;
    }
    if cs :| Concat(cs) == s && forall c :: c in cs ==> CharLen(c) == |c| > 0 {
      forall c | c in cs ensures WellFormed(c) {
        assert c[CharLen(c)..] == [];
      }
      ConcatWellFormed(cs);
    }
  }

  lemma {:induction false} Characters(s: seq<byte>) returns (cs: seq<seq<byte>>)
    requires WellFormed(s)
    ensures Concat(cs) == s && forall c :: c in cs ==> CharLen(c) == |c| > 0
    decreases |s|
  {
    if s == [] {
      cs := [];
    } else {
      var n := CharLen(s);
      var rest := Characters(s[n..]);
      cs := [s[..n]] + rest;
      PrefixCode(s[..n], s[n..]);
      assert s[..n] + s[n..] == s;
      ConcatConcat([s[..n]], rest);
      assert Concat([s[..n]]) == s[..n];
    }
  }
}
