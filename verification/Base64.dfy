/** Base64 in both alphabets, against sections 4 and 5 of RFC 4648.  Octets and sextets are numbers. */
module Base64 {
  import opened Basics

  type byte = x: int | 0 <= x < 256
  type sextet = x: int | 0 <= x < 64

  const PAD: char := '='

  /** base64_chars and base64url_chars: A-Z, a-z, 0-9, then + / or - _. */
  function Char(v: sextet, url: bool): (c: char)
    ensures c != PAD
  {
    if v < 26 then 'A' + v as char
    else if v < 52 then 'a' + (v - 26) as char
    else if v < 62 then '0' + (v - 52) as char
    else if v == 62 then (if url then '-' else '+')
    else (if url then '_' else '/')
  }

  /** find() in the alphabet. */
  function Find(c: char, url: bool): Option<sextet> {
    if 'A' <= c <= 'Z' then Some(c as int - 'A' as int)
    else if 'a' <= c <= 'z' then Some(c as int - 'a' as int + 26)
    else if '0' <= c <= '9' then Some(c as int - '0' as int + 52)
    else if c == (if url then '-' else '+') then Some(62)
    else if c == (if url then '_' else '/') then Some(63)
    else None
  }

  lemma CharIsFound(v: sextet, url: bool)
    ensures Find(Char(v, url), url) == Some(v)
  {
  }

  /** find() is the inverse of the table, and fails on everything else. */
  lemma FindIsInverse(c: char, url: bool)
    ensures forall v: sextet :: Find(c, url) == Some(v) <==> Char(v, url) == c
  {
    forall v: sextet ensures Find(c, url) == Some(v) <==> Char(v, url) == c {
      if Char(v, url) == c { CharIsFound(v, url); }
    }
  }

  // ----- RFC 4648 -----

  /** Sextet k of the 24-bit group. */
  function OfGroup(b0: byte, b1: byte, b2: byte, k: nat): sextet
    requires k < 4
  {
    var v := b0 * 65536 + b1 * 256 + b2;
    (if k == 0 then v / 262144 else if k == 1 then v / 4096 else if k == 2 then v / 64 else v) % 64
  }

  function Rfc4648(x: seq<byte>, url: bool): string {
    if x == [] then ""
    else if |x| == 1 then [Char(OfGroup(x[0], 0, 0, 0), url), Char(OfGroup(x[0], 0, 0, 1), url), PAD, PAD]
    else if |x| == 2 then
      [Char(OfGroup(x[0], x[1], 0, 0), url), Char(OfGroup(x[0], x[1], 0, 1), url),
        Char(OfGroup(x[0], x[1], 0, 2), url), PAD]
    else
      [Char(OfGroup(x[0], x[1], x[2], 0), url), Char(OfGroup(x[0], x[1], x[2], 1), url),
       Char(OfGroup(x[0], x[1], x[2], 2), url), Char(OfGroup(x[0], x[1], x[2], 3), url)] + Rfc4648(x[3..], url)
  }

  // ----- what the code emits -----

  /** The masks and shifts of Encode. */
  function First(b0: byte): sextet { b0 / 4 }
  function Second(b0: byte, b1: byte): sextet { b0 % 4 * 16 + b1 / 16 }
  function Third(b1: byte, b2: byte): sextet { b1 % 16 * 4 + b2 / 64 }
  function Fourth(b2: byte): sextet { b2 % 64 }

  lemma MasksAreGroup(b0: byte, b1: byte, b2: byte)
    ensures First(b0) == OfGroup(b0, b1, b2, 0) && Second(b0, b1) == OfGroup(b0, b1, b2, 1)
    ensures Third(b1, b2) == OfGroup(b0, b1, b2, 2) && Fourth(b2) == OfGroup(b0, b1, b2, 3)
  {
    var v := b0 * 65536 + b1 * 256 + b2;
    var f: int, s: int, t: int, u: int := First(b0), Second(b0, b1), Third(b1, b2), Fourth(b2);
    assert b0 == 4 * f + b0 % 4 && b1 == 16 * (b1 / 16) + b1 % 16 && b2 == 64 * (b2 / 64) + u;
    assert v == f * 262144 + s * 4096 + t * 64 + u;
    hide First, Second, Third, Fourth;
    Digits64(f, s, t, u);
  }

  lemma Digits64(f: sextet, s: sextet, t: sextet, u: sextet)
    ensures var v := f * 262144 + s * 4096 + t * 64 + u;
            v / 262144 % 64 == f && v / 4096 % 64 == s && v / 64 % 64 == t && v % 64 == u
  {
    var v := f * 262144 + s * 4096 + t * 64 + u;
    assert v / 64 == f * 4096 + s * 64 + t;
    assert v / 4096 == f * 64 + s;
    assert v / 262144 == f;
  }

  /** The third sextet of a two-byte rest is left out when it is 0. */
  function Sextets(x: seq<byte>): seq<sextet> {
    if x == [] then []
    else if |x| == 1 then [First(x[0]), Second(x[0], 0)]
    else if |x| == 2 then [First(x[0]), Second(x[0], x[1])] + (if Third(x[1], 0) != 0 then [Third(x[1], 0)] else [])
    else [First(x[0]), Second(x[0], x[1]), Third(x[1], x[2]), Fourth(x[2])] + Sextets(x[3..])
  }

  function Pads(x: seq<byte>): string { if |x| % 3 == 1 then [PAD, PAD] else if |x| % 3 == 2 then [PAD] else [] }

  function Chars(v: seq<sextet>, url: bool): (s: string)
    ensures |s| == |v| && PAD !in s
  {
    seq(|v|, i requires 0 <= i < |v| => Char(v[i], url))
  }

  function Coded(x: seq<byte>, url: bool): string { Chars(Sextets(x), url) + Pads(x) }

  /** Two bytes are left over at the end and the last one has a zero low nibble. */
  predicate TailIsCut(x: seq<byte>) { |x| % 3 == 2 && x[|x| - 1] % 16 == 0 }

  lemma CodedGroup(x: seq<byte>, url: bool)
    requires |x| >= 3
    ensures Coded(x, url) ==
            [Char(First(x[0]), url), Char(Second(x[0], x[1]), url), Char(Third(x[1], x[2]), url),
              Char(Fourth(x[2]), url)]
            + Coded(x[3..], url)
  {
    hide Char, First, Second, Third, Fourth;
    var four := [First(x[0]), Second(x[0], x[1]), Third(x[1], x[2]), Fourth(x[2])];
    assert Chars(four + Sextets(x[3..]), url) == Chars(four, url) + Chars(Sextets(x[3..]), url);
    assert Chars(four, url) == [Char(four[0], url), Char(four[1], url), Char(four[2], url), Char(four[3], url)];
  }

  /** Encode is the encoding of the standard exactly for the inputs whose tail is not cut. */
  lemma {:induction false} CodedIsStandardIff(x: seq<byte>, url: bool)
    ensures Coded(x, url) == Rfc4648(x, url) <==> !TailIsCut(x)
    decreases |x|
  {
    if |x| >= 3 {
      var four := [Char(First(x[0]), url), Char(Second(x[0], x[1]), url), Char(Third(x[1], x[2]), url),
        Char(Fourth(x[2]), url)];
      assert TailIsCut(x) <==> TailIsCut(x[3..]);
      hide Char, OfGroup, Coded, First, Second, Third, Fourth;
      MasksAreGroup(x[0], x[1], x[2]);
      CodedGroup(x, url);
      assert Rfc4648(x, url) == four + Rfc4648(x[3..], url);
      hide Rfc4648, TailIsCut;
      CodedIsStandardIff(x[3..], url);
      SameFront(four, Coded(x[3..], url), Rfc4648(x[3..], url));
    } else if |x| == 2 {
      TailOfTwo(x, url);
    } else if |x| == 1 {
      MasksAreGroup(x[0], 0, 0);
      hide Char, OfGroup, First, Second;
      assert Coded(x, url) == Rfc4648(x, url);
    } else {
      assert Coded(x, url) == Rfc4648(x, url);
    }
  }

  lemma SameFront(front: string, a: string, b: string)
    ensures front + a == front + b <==> a == b
  {
    assert (front + a)[|front|..] == a && (front + b)[|front|..] == b;
  }

  lemma TailOfTwo(x: seq<byte>, url: bool)
    requires |x| == 2
    ensures |Coded(x, url)| == (if TailIsCut(x) then 3 else 4)
    ensures !TailIsCut(x) ==> Coded(x, url) == Rfc4648(x, url)
    ensures |Rfc4648(x, url)| == 4
  {
    MasksAreGroup(x[0], x[1], 0);
    hide Char, OfGroup;
    assert Third(x[1], 0) == 0 <==> x[1] % 16 == 0;
    hide First, Second, Third;
    if !TailIsCut(x) { assert Coded(x, url) == Rfc4648(x, url); }
  }

  // ----- what the code accepts -----

  /** Where the first pad character is, or the end. */
  function Until(s: string): (k: nat)
    ensures k <= |s| && PAD !in s[..k] && (k < |s| ==> s[k] == PAD)
  {
    if s == [] || s[0] == PAD then 0 else 1 + Until(s[1..])
  }

  predicate Known(s: string, url: bool) { forall i :: 0 <= i < |s| ==> Find(s[i], url).Some? }

  function Values(s: string, url: bool): (v: seq<sextet>)
    requires Known(s, url)
    ensures |v| == |s|
  {
    seq(|s|, i requires 0 <= i < |s| => Find(s[i], url).value)
  }

  function Front(c1: sextet, c2: sextet): byte { c1 * 4 + c2 / 16 }
  function Middle(c2: sextet, c3: sextet): byte { c2 % 16 * 16 + c3 / 4 }
  function Back(c3: sextet, c4: sextet): byte { c3 % 4 * 64 + c4 }

  function NonZero(b: byte): seq<byte> { if b != 0 then [b] else [] }

  /** Of a rest of one to three sextets only bytes that are not 0 follow the first. */
  function Bytes(v: seq<sextet>): seq<byte> {
    if v == [] then []
    else if |v| < 4 then
      var (c2, c3) := (if |v| > 1 then v[1] else 0, if |v| > 2 then v[2] else 0);
      [Front(v[0], c2)] + NonZero(Middle(c2, c3)) + NonZero(Back(c3, 0))
    else [Front(v[0], v[1]), Middle(v[1], v[2]), Back(v[2], v[3])] + Bytes(v[4..])
  }

  /** Everything from the first pad character on must be as long as the last group lacks; any error
      gives the empty string. */
  function Decoded(s: string, url: bool): seq<byte> {
    var k := Until(s);
    if !Known(s[..k], url) || (|s| > k && |s| - k != 4 - k % 4) then [] else Bytes(Values(s[..k], url))
  }

  // ----- the round trip -----

  lemma {:induction false} CountSextets(x: seq<byte>)
    ensures |Sextets(x)| % 4 == (if |x| % 3 == 0 then 0 else if |x| % 3 == 2 && !TailIsCut(x) then 3 else 2)
    decreases |x|
  {
    if |x| >= 3 {
      CutFromRest(x);
      assert |Sextets(x)| == 4 + |Sextets(x[3..])|;
      hide TailIsCut, Sextets;
      CountSextets(x[3..]);
      Mods(|x|, |Sextets(x[3..])|);
    } else if |x| == 2 {
      CountTwo(x);
    }
  }

  lemma CountTwo(x: seq<byte>)
    requires |x| == 2
    ensures |Sextets(x)| == if TailIsCut(x) then 2 else 3
  {
    CutIffZero(x[1]);
    hide First, Second, Third, Fourth;
  }

  lemma CutIffZero(b1: byte)
    ensures Third(b1, 0) == 0 <==> b1 % 16 == 0
  {
    hide Third;
    ZeroSextets(b1);
    var m: int := b1 % 16;
    assert m * 4 == 0 <==> m == 0;
  }

  lemma CutFromRest(x: seq<byte>)
    requires |x| >= 3
    ensures TailIsCut(x) <==> TailIsCut(x[3..])
  {
  }

  lemma Mods(n: nat, m: nat)
    requires n >= 3
    ensures n % 3 == (n - 3) % 3 && (4 + m) % 4 == m % 4
  {
  }

  lemma GroupIsBack(b0: byte, b1: byte, b2: byte)
    ensures Front(First(b0), Second(b0, b1)) == b0
    ensures Middle(Second(b0, b1), Third(b1, b2)) == b1
    ensures Back(Third(b1, b2), Fourth(b2)) == b2
  {
  }

  lemma {:induction false} BytesAreBack(x: seq<byte>)
    requires !TailIsCut(x)
    ensures Bytes(Sextets(x)) == x
    decreases |x|
  {
    if |x| >= 3 {
      GroupIsBack(x[0], x[1], x[2]);
      assert TailIsCut(x) <==> TailIsCut(x[3..]);
      hide First, Second, Third, Fourth, Front, Middle, Back, TailIsCut;
      BytesAreBack(x[3..]);
      var four := [First(x[0]), Second(x[0], x[1]), Third(x[1], x[2]), Fourth(x[2])];
      assert Sextets(x) == four + Sextets(x[3..]) && Sextets(x)[4..] == Sextets(x[3..]);
      assert x == [x[0], x[1], x[2]] + x[3..];
    } else if |x| == 2 {
      CutMeans(x[1]);
      TwoAreBack(x);
    } else if |x| == 1 {
      OneIsBack(x);
    }
  }

  lemma ZeroSextets(b1: byte)
    ensures Third(b1, 0) == b1 % 16 * 4 && Third(0, 0) == 0 && Fourth(0) == 0
  {
  }

  lemma CutMeans(b1: byte)
    requires b1 % 16 != 0
    ensures Third(b1, 0) != 0 && b1 != 0
  {
    hide Third;
    ZeroSextets(b1);
    var m: int := b1 % 16;
    assert m * 4 != 0;
  }

  lemma TwoAreBack(x: seq<byte>)
    requires |x| == 2 && Third(x[1], 0) != 0 && x[1] != 0
    ensures Bytes(Sextets(x)) == x
  {
    hide First, Second, Third, Fourth, Front, Middle, Back;
    GroupIsBack(x[0], x[1], 0);
    ZeroSextets(0);
    assert Sextets(x) == [First(x[0]), Second(x[0], x[1]), Third(x[1], 0)];
    ThreeDecode(First(x[0]), Second(x[0], x[1]), Third(x[1], 0));
    assert NonZero(x[1]) == [x[1]] && NonZero(0) == [];
  }

  lemma ThreeDecode(c1: sextet, c2: sextet, c3: sextet)
    ensures Bytes([c1, c2, c3]) == [Front(c1, c2)] + NonZero(Middle(c2, c3)) + NonZero(Back(c3, 0))
  {
    hide Front, Middle, Back, NonZero;
  }

  lemma OneIsBack(x: seq<byte>)
    requires |x| == 1
    ensures Bytes(Sextets(x)) == x
  {
    hide First, Second, Third, Fourth, Front, Middle, Back;
    GroupIsBack(x[0], 0, 0);
    ZeroSextets(0);
    assert Sextets(x) == [First(x[0]), Second(x[0], 0)];
    assert Bytes(Sextets(x)) == [x[0]] + NonZero(0) + NonZero(0);
  }

  lemma {:induction false} UntilPads(s: string, pads: string)
    requires PAD !in s && (pads == [] || pads[0] == PAD)
    ensures Until(s + pads) == |s|
    decreases |s|
  {
    if s == [] {
      assert s + pads == pads;
    } else {
      assert (s + pads)[1..] == s[1..] + pads;
      UntilPads(s[1..], pads);
    }
  }

  lemma ValuesOfChars(v: seq<sextet>, url: bool)
    ensures Known(Chars(v, url), url) && Values(Chars(v, url), url) == v
  {
    forall i | 0 <= i < |v| ensures Find(Chars(v, url)[i], url) == Some(v[i]) { CharIsFound(v[i], url); }
    hide Find, Char;
  }

  /** Decode gives back what Encode took, in either alphabet, exactly when the tail was not cut; then it
      gives the empty string. */
  lemma RoundTripIff(x: seq<byte>, url: bool)
    ensures Decoded(Coded(x, url), url) == (if TailIsCut(x) then [] else x)
    ensures Decoded(Coded(x, url), url) == x <==> !TailIsCut(x)
  {
    var (v, s) := (Sextets(x), Chars(Sextets(x), url));
    UntilPads(s, Pads(x));
    ValuesOfChars(v, url);
    CountSextets(x);
    assert Coded(x, url)[..|s|] == s;
    assert |Pads(x)| == (if |x| % 3 == 0 then 0 else 3 - |x| % 3);
    hide Until, Known, Values, Chars, Bytes, Sextets;
    if !TailIsCut(x) { BytesAreBack(x); }
  }

  // ----- the code -----

  method Encode(szInput: seq<byte>, url: bool) returns (strRet: string)
    ensures strRet == Coded(szInput, url)
  {
    strRet := "";
    var nLen: nat, nPos: nat, nIndex: nat := |szInput|, 0, 0;
    ghost var base: nat := 0;
    assert szInput[0..] == szInput && Encoding(szInput, url, base, strRet);
    hide Coded, Encoding;
    while nLen > 0
      invariant nIndex < 3 && nPos == base + nIndex && nPos + nLen == |szInput| && Encoding(szInput, url, base, strRet)
      decreases nLen
    {
      nLen, nPos, nIndex := nLen - 1, nPos + 1, nIndex + 1;
      if nIndex == 3 {
        strRet := EncodeGroup(szInput, nPos, url, strRet);
        nIndex, base := 0, nPos;
      }
    }
    EncodingEnds(szInput, url, base, strRet);
    var tail := EncodeTail(szInput[nPos - nIndex..], url);
    strRet := strRet + tail;
  }

  /** The groups in front of `base` are encoded. */
  ghost predicate Encoding(x: seq<byte>, url: bool, base: nat, strRet: string) {
    base <= |x| && strRet + Coded(x[base..], url) == Coded(x, url)
  }

  lemma EncodingEnds(x: seq<byte>, url: bool, base: nat, strRet: string)
    requires Encoding(x, url, base, strRet)
    ensures base <= |x| && strRet + Coded(x[base..], url) == Coded(x, url)
  {
  }

  method EncodeGroup(szInput: seq<byte>, nPos: nat, url: bool, before: string) returns (strRet: string)
    requires 3 <= nPos <= |szInput| && Encoding(szInput, url, nPos - 3, before)
    ensures Encoding(szInput, url, nPos, strRet)
  {
    hide Char, Coded, First, Second, Third, Fourth;
    CodedGroup(szInput[nPos - 3..], url);
    assert szInput[nPos - 3..][3..] == szInput[nPos..];
    var four := [
      Char(First(szInput[nPos - 3]), url), Char(Second(szInput[nPos - 3], szInput[nPos - 2]), url),
      Char(Third(szInput[nPos - 2], szInput[nPos - 1]), url), Char(Fourth(szInput[nPos - 1]), url)];
    Associate(before, four, Coded(szInput[nPos..], url));
    strRet := before + four;
  }

  /** The one or two bytes left over. */
  method EncodeTail(rest: seq<byte>, url: bool) returns (tail: string)
    requires |rest| < 3
    ensures tail == Coded(rest, url)
  {
    tail := "";
    TailOfCode(rest, url);
    var nIndex: nat := |rest|;
    hide Char, First, Second, Third, Coded;
    if nIndex > 0 {
      var b0, b1 := rest[0], if nIndex > 1 then rest[1] else 0;
      tail := [Char(First(b0), url), Char(Second(b0, b1), url)];
      if nIndex > 1 && Third(b1, 0) != 0 { tail := tail + [Char(Third(b1, 0), url)]; }
      ghost var front, n := tail, nIndex;
      while nIndex < 3
        invariant n <= nIndex <= 3 && tail == front + seq(nIndex - n, i => PAD)
      {
        tail := tail + [PAD];
        nIndex := nIndex + 1;
      }
    }
  }

  lemma TailOfCode(x: seq<byte>, url: bool)
    requires |x| < 3
    ensures |x| == 0 ==> Coded(x, url) == ""
    ensures |x| == 1 ==> Coded(x, url) == [Char(First(x[0]), url), Char(Second(x[0], 0), url)] + seq(2, i => PAD)
    ensures |x| == 2 ==> Coded(x, url) ==
                         [Char(First(x[0]), url), Char(Second(x[0], x[1]), url)]
                         + (if Third(x[1], 0) != 0 then [Char(Third(x[1], 0), url)] else []) + seq(1, i => PAD)
  {
    hide Char, First, Second, Third;
  }

  lemma BytesOfGroups(v: seq<sextet>, w: seq<sextet>)
    requires |v| % 4 == 0
    ensures Bytes(v + w) == Bytes(v) + Bytes(w)
    decreases |v|
  {
    if v == [] {
      assert v + w == w;
    } else {
      assert (v + w)[4..] == v[4..] + w;
      BytesOfGroups(v[4..], w);
    }
  }

  method Decode(strInput: string, url: bool) returns (strRet: seq<byte>)
    ensures strRet == Decoded(strInput, url)
  {
    var nLen: nat, nPos: nat, nIndex: nat := |strInput|, 0, 0;
    strRet := [];
    DecodingStarts(strInput, url);
    hide Decoding, Decoded, Find;
    while nLen > 0 && strInput[nPos] != PAD
      invariant nPos + nLen == |strInput| && Decoding(strInput, url, nPos, nIndex, strRet)
      decreases nLen
    {
      if Find(strInput[nPos], url).None? {
        Unknown(strInput, url, nPos, nIndex, strRet);
        return [];
      }
      nIndex, strRet := TakeChar(strInput, url, nPos, nIndex, strRet);
      nLen, nPos := nLen - 1, nPos + 1;
    }
    strRet := Finish(strInput, url, nPos, nIndex, strRet);
  }

  predicate InGroup(nPos: nat, nIndex: nat) { nIndex == nPos % 4 }

  lemma NextInGroup(nPos: nat, nIndex: nat)
    requires InGroup(nPos, nIndex)
    ensures InGroup(nPos + 1, if nIndex + 1 == 4 then 0 else nIndex + 1) && nIndex < 4 && nIndex <= nPos
  {
  }

  /** After nPos characters, nIndex of them in a group still open. */
  ghost predicate Decoding(s: string, url: bool, nPos: nat, nIndex: nat, strRet: seq<byte>) {
    && nPos <= |s| && InGroup(nPos, nIndex) && Scanned(s, url, nPos)
    && Known(s[..nPos - nIndex], url) && strRet == Bytes(Values(s[..nPos - nIndex], url))
  }

  lemma DecodingStarts(s: string, url: bool)
    ensures Decoding(s, url, 0, 0, [])
  {
  }

  method TakeChar(s: string, url: bool, nPos: nat, nIndex: nat, before: seq<byte>)
      returns (nIndex': nat, strRet: seq<byte>)
    requires Decoding(s, url, nPos, nIndex, before) && nPos < |s| && s[nPos] != PAD && Find(s[nPos], url).Some?
    ensures Decoding(s, url, nPos + 1, nIndex', strRet)
  {
    nIndex', strRet := nIndex + 1, before;
    hide Bytes, Find, Values, Known, Scanned, InGroup;
    NextInGroup(nPos, nIndex);
    KnownOneMore(s, url, nPos);
    if nIndex' == 4 {
      nIndex' := 0;
      var three := DecodeGroup(s, url, nPos + 1);
      strRet := strRet + three;
      assert s[..nPos + 1 - 0] == s[..nPos + 1];
    }
  }

  method Finish(strInput: string, url: bool, nPos: nat, nIndex: nat, before: seq<byte>) returns (strRet: seq<byte>)
    requires Decoding(strInput, url, nPos, nIndex, before) && (nPos < |strInput| ==> strInput[nPos] == PAD)
    ensures strRet == Decoded(strInput, url)
  {
    hide Bytes, Find, Values, Known, Decoded, Scanned;
    var tail := DecodeTail(strInput, url, nPos, nIndex);
    WhatIsDecoded(strInput, url, nPos);
    var nLen := |strInput| - nPos;
    strRet := if nLen > 0 && nLen != 4 - nIndex then [] else before + tail;
  }

  /** The first n characters are in the alphabet and no pad characters. */
  ghost predicate Scanned(s: string, url: bool, n: nat) { n <= |s| && PAD !in s[..n] && Known(s[..n], url) }

  method DecodeGroup(strInput: string, url: bool, nPos: nat) returns (three: seq<byte>)
    requires 4 <= nPos <= |strInput| && InGroup(nPos, 0) && Scanned(strInput, url, nPos)
    ensures Known(strInput[..nPos - 4], url) && Known(strInput[..nPos], url)
    ensures Bytes(Values(strInput[..nPos], url)) == Bytes(Values(strInput[..nPos - 4], url)) + three
  {
    hide Bytes, Find, Values, Front, Middle, Back;
    GroupDecoded(strInput, url, nPos);
    var c1 := Find(strInput[nPos - 4], url).value;
    var c2 := Find(strInput[nPos - 3], url).value;
    var c3 := Find(strInput[nPos - 2], url).value;
    var c4 := Find(strInput[nPos - 1], url).value;
    three := [Front(c1, c2), Middle(c2, c3), Back(c3, c4)];
  }

  method DecodeTail(strInput: string, url: bool, nPos: nat, nIndex: nat) returns (tail: seq<byte>)
    requires nPos <= |strInput| && InGroup(nPos, nIndex) && Scanned(strInput, url, nPos)
    ensures Known(strInput[..nPos - nIndex], url) && Known(strInput[..nPos], url)
    ensures Bytes(Values(strInput[..nPos], url)) == Bytes(Values(strInput[..nPos - nIndex], url)) + tail
  {
    tail := [];
    hide Bytes, Find, Values, Front, Middle, Back, NonZero;
    if nIndex > 0 {
      TailDecoded(strInput, url, nPos, nIndex);
      var c1 := Find(strInput[nPos - nIndex], url).value;
      var c2 := if nIndex > 1 then Find(strInput[nPos - nIndex + 1], url).value else 0;
      var c3 := if nIndex > 2 then Find(strInput[nPos - nIndex + 2], url).value else 0;
      tail := [Front(c1, c2)] + NonZero(Middle(c2, c3)) + NonZero(Back(c3, 0));
    }
  }

  lemma WhatIsDecoded(s: string, url: bool, n: nat)
    requires Scanned(s, url, n) && (n < |s| ==> s[n] == PAD)
    ensures n <= |s| && Known(s[..n], url)
    ensures Decoded(s, url) == if |s| > n && |s| - n != 4 - n % 4 then [] else Bytes(Values(s[..n], url))
  {
    UntilIs(s, n);
    hide Bytes, Values;
  }

  lemma KnownOneMore(s: string, url: bool, n: nat)
    requires n < |s| && s[n] != PAD && Scanned(s, url, n) && Find(s[n], url).Some?
    ensures Scanned(s, url, n + 1)
  {
    hide Find;
    assert s[..n + 1] == s[..n] + [s[n]];
  }

  lemma Unknown(s: string, url: bool, n: nat, nIndex: nat, strRet: seq<byte>)
    requires Decoding(s, url, n, nIndex, strRet) && n < |s| && s[n] != PAD && Find(s[n], url).None?
    ensures Decoded(s, url) == []
  {
    UntilBeyond(s, n);
    assert !Known(s[..Until(s)], url);
  }

  lemma {:induction false} UntilBeyond(s: string, n: nat)
    requires n < |s| && PAD !in s[..n] && s[n] != PAD
    ensures n < Until(s) && s[..Until(s)][n] == s[n]
    decreases n
  {
    if n > 0 {
      assert s[0] == s[..n][0] && s[1..][..n - 1] == s[..n][1..];
      UntilBeyond(s[1..], n - 1);
    }
  }

  lemma {:induction false} UntilIs(s: string, n: nat)
    requires n <= |s| && PAD !in s[..n] && (n < |s| ==> s[n] == PAD)
    ensures Until(s) == n
    decreases n
  {
    if n > 0 {
      assert s[0] == s[..n][0] && s[1..][..n - 1] == s[..n][1..];
      UntilIs(s[1..], n - 1);
    }
  }

  lemma KnownParts(s: string, url: bool, m: nat, n: nat)
    requires m <= n <= |s| && Known(s[..n], url)
    ensures Known(s[..m], url) && Known(s[m..n], url)
    ensures Values(s[..n], url) == Values(s[..m], url) + Values(s[m..n], url)
    ensures forall i :: m <= i < n ==> Find(s[i], url).Some? && Values(s[m..n], url)[i - m] == Find(s[i], url).value
  {
    hide Find;
    forall i | 0 <= i < n ensures Find(s[i], url).Some? { assert s[..n][i] == s[i]; }
  }

  lemma GroupDecoded(s: string, url: bool, n: nat)
    requires 4 <= n <= |s| && InGroup(n, 0) && Known(s[..n], url)
    ensures Known(s[..n - 4], url) && Find(s[n - 4], url).Some? && Find(s[n - 3], url).Some?
            && Find(s[n - 2], url).Some? && Find(s[n - 1], url).Some?
    ensures Bytes(Values(s[..n], url)) == Bytes(Values(s[..n - 4], url))
            + [Front(Find(s[n - 4], url).value, Find(s[n - 3], url).value),
              Middle(Find(s[n - 3], url).value, Find(s[n - 2], url).value),
               Back(Find(s[n - 2], url).value, Find(s[n - 1], url).value)]
  {
    KnownParts(s, url, n - 4, n);
    var (v, w) := (Values(s[..n - 4], url), Values(s[n - 4..n], url));
    hide Find, Front, Middle, Back, Values, Known;
    var (a, b, c, d) := (n - 4, n - 4 + 1, n - 4 + 2, n - 4 + 3);
    assert s[a..n][0] == s[a] && w[0] == Find(s[a + 0], url).value && w[1] == Find(s[b], url).value;
    assert w[2] == Find(s[c], url).value && w[3] == Find(s[d], url).value;
    BytesOfGroups(v, w);
    assert w[4..] == [];
  }

  lemma TailDecoded(s: string, url: bool, n: nat, k: nat)
    requires n <= |s| && k == n % 4 && k > 0 && Known(s[..n], url)
    ensures forall i :: n - k <= i < n ==> Find(s[i], url).Some?
    ensures var c2 := if k > 1 then Find(s[n - k + 1], url).value else 0;
            var c3 := if k > 2 then Find(s[n - k + 2], url).value else 0;
            && Known(s[..n - k], url)
            && Bytes(Values(s[..n], url)) ==
               Bytes(Values(s[..n - k], url))
                 + ([Front(Find(s[n - k], url).value, c2)] + NonZero(Middle(c2, c3)) + NonZero(Back(c3, 0)))
  {
    KnownParts(s, url, n - k, n);
    var (v, w) := (Values(s[..n - k], url), Values(s[n - k..n], url));
    assert forall i :: n - k <= i < n ==> s[i] == s[..n][i];
    hide Find, Front, Middle, Back, NonZero, Values;
    assert w[n - k - (n - k)] == Find(s[n - k], url).value;
    BytesOfGroups(v, w);
  }
}
