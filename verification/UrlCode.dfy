/** Percent-encoding of UTF-8 (section 2.1 of RFC 3986, section 3 of RFC 3629): url_encode and the path
decoder of the request handler, whose state between octets is a pending character and a count. */
module UrlCode {
  import opened Basics

  type Octets = seq<bv8>

  // ----- UTF-8 -----

  type Scalar = bv32

  function Narrow(x: bv32): bv8 { (x & 0xff) as bv8 }

  function Continuation(x: bv32): bv8 { 0x80 | Narrow(x & 0x3f) }

  function Skip6(x: bv32): bv32 { x >> 6 }
  function Skip12(x: bv32): bv32 { x >> 12 }
  function Lead2(c: bv32): bv8 { 0xC0 | Narrow(c >> 6) }
  function Lead3(c: bv32): bv8 { 0xE0 | Narrow(c >> 12) }
  function Lead4(c: bv32): bv8 { 0xF0 | Narrow((c >> 18) & 7) }

  function Utf8Of(c: Scalar): Octets {
    if c < 0x80 then [Narrow(c)]
    else if c < 0x800 then [Lead2(c), Continuation(c)]
    else if c < 0x10000 then [Lead3(c), Continuation(Skip6(c)), Continuation(c)]
    else [Lead4(c), Continuation(Skip12(c)), Continuation(Skip6(c)), Continuation(c)]
  }

  function Utf8(s: seq<Scalar>): Octets { if s == [] then [] else Utf8Of(s[0]) + Utf8(s[1..]) }

  // ----- url_encode -----

  predicate IsAlnum(b: bv8) { 0x30 <= b <= 0x39 || 0x41 <= b <= 0x5A || 0x61 <= b <= 0x7A }

  /** - _ . ~ / : ? & and the alphanumeric ones. */
  predicate Plain(b: bv8) {
    IsAlnum(b) || b == 0x2D || b == 0x5F || b == 0x2E || b == 0x7E || b == 0x2F || b == 0x3A || b == 0x3F || b == 0x26
  }

  function HexDigit(d: bv8): bv8 { if d < 10 then 0x30 + d else 0x37 + d }

  function Escaped(b: bv8): Octets { if Plain(b) then [b] else [0x25, HexDigit(b >> 4), HexDigit(b & 0xf)] }

  function UrlEncoded(v: Octets): Octets { if v == [] then [] else Escaped(v[0]) + UrlEncoded(v[1..]) }

  lemma EncodedCons(v: Octets, i: nat)
    requires i < |v|
    ensures UrlEncoded(v[i..]) == Escaped(v[i]) + UrlEncoded(v[i + 1..])
  {
    hide Escaped;
    assert v[i..][1..] == v[i + 1..];
  }

  method UrlEncode(value: Octets) returns (escaped: Octets)
    ensures escaped == UrlEncoded(value)
  {
    escaped := [];
    assert value[0..] == value && UrlEncoded(value[|value|..]) == [];
    for i := 0 to |value|
      invariant escaped + UrlEncoded(value[i..]) == UrlEncoded(value)
    {
      EncodedCons(value, i);
      hide Escaped, UrlEncoded;
      Associate(escaped, Escaped(value[i]), UrlEncoded(value[i + 1..]));
      escaped := escaped + Escaped(value[i]);
    }
  }

  // ----- the decoder -----

  datatype Result = Ok(path: seq<bv32>, query: Octets) | BadRequest

  predicate IsXDigit(b: bv8) { 0x30 <= b <= 0x39 || 0x41 <= b <= 0x46 || 0x61 <= b <= 0x66 }

  function Nibble(b: bv8): bv8 { b - (if b <= 0x39 then 0x30 else if b <= 0x46 then 0x37 else 0x57) }

  /** What one escaped octet does: characters appended, then wch and nAnzParts. */
  datatype Step = Reject | Go(out: seq<bv32>, wch: bv32, parts: int)

  function Pending(x: bv32, w: bv32, parts: int): bv32 { w | (if parts == 2 then (x & 0x3F) << 6 else x & 0x3F) }

  function Octet(chr: bv8, wch: bv32, parts: int): Step {
    var x := chr as bv32;
    if chr < 0x20 then Reject
    else if chr < 0x7f then Go([x], wch, parts)
    else if 0x80 <= chr <= 0xBF then
      var w := Pending(x, wch, parts);
      Go(if parts - 1 == 0 then [w] else [], w, parts - 1)
    else if 0xC0 < chr <= 0xDF then Go([], (x & 0x1F) << 6, 1)
    else if 0xE0 < chr <= 0xEF then Go([], (x & 0xF) << 12, 2)
    else Go([], wch, parts)
  }

  /** A plain octet is a signed char widened to wchar_t. */
  function Widened(b: bv8): bv32 { if b < 0x80 then b as bv32 else 0xFFFFFF00 | b as bv32 }

  function Prepend(out: seq<bv32>, r: Result): Result { if r.Ok? then Ok(out + r.path, r.query) else BadRequest }

  function Decode(p: Octets, wch: bv32, parts: int): Result
    decreases |p|
  {
    if p == [] then Ok([], [])
    else if p[0] == 0x25 then
      if |p| < 3 || !IsXDigit(p[1]) || !IsXDigit(p[2]) then BadRequest
      else
        var step := Octet(16 * Nibble(p[1]) + Nibble(p[2]), wch, parts);
        if step.Reject? then BadRequest else Prepend(step.out, Decode(p[3..], step.wch, step.parts))
    else if p[0] == 0x3F then Ok([], p[1..])
    else Prepend([Widened(p[0])], Decode(p[1..], wch, parts))
  }

  // ----- what decoding makes of encoded text -----

  /** Octets one after the other. */
  function Feed(v: Octets, wch: bv32, parts: int): Step {
    if v == [] then Go([], wch, parts)
    else
      var one := Octet(v[0], wch, parts);
      if one.Reject? then Reject
      else
        var rest := Feed(v[1..], one.wch, one.parts);
        if rest.Reject? then Reject else Go(one.out + rest.out, rest.wch, rest.parts)
  }

  function Then(step: Step, rest: Octets): Result {
    if step.Reject? then BadRequest else Prepend(step.out, Decode(rest, step.wch, step.parts))
  }

  lemma DigitsAreRead(b: bv8)
    ensures IsXDigit(HexDigit(b >> 4)) && IsXDigit(HexDigit(b & 0xf))
    ensures 16 * Nibble(HexDigit(b >> 4)) + Nibble(HexDigit(b & 0xf)) == b
  {
  }

  lemma EscapedIsRead(b: bv8, rest: Octets, wch: bv32, parts: int)
    requires b != 0x3F
    ensures Decode(Escaped(b) + rest, wch, parts) == Then(Octet(b, wch, parts), rest)
  {
    var p := Escaped(b) + rest;
    DigitsAreRead(b);
    if Plain(b) {
      PlainIsItself(b, wch, parts);
      assert p[1..] == rest;
    } else {
      assert p[3..] == rest;
      hide Octet, HexDigit, Nibble, IsXDigit, Plain, IsAlnum;
    }
  }

  lemma PlainIsItself(b: bv8, wch: bv32, parts: int)
    requires Plain(b)
    ensures b != 0x25 && Octet(b, wch, parts) == Go([Widened(b)], wch, parts)
  {
  }

  predicate NoMark(v: Octets) { forall i :: 0 <= i < |v| ==> v[i] != 0x3F }

  lemma PrependTwice(a: seq<bv32>, b: seq<bv32>, r: Result)
    ensures Prepend(a, Prepend(b, r)) == Prepend(a + b, r)
  {
    if r.Ok? { assert a + (b + r.path) == a + b + r.path; }
  }

  lemma {:induction false} EncodedIsFed(v: Octets, rest: Octets, wch: bv32, parts: int)
    requires NoMark(v)
    ensures Decode(UrlEncoded(v) + rest, wch, parts) == Then(Feed(v, wch, parts), rest)
    decreases |v|
  {
    if v == [] {
      assert UrlEncoded(v) + rest == rest;
      NothingToPrepend(Decode(rest, wch, parts));
    } else {
      var (one, more) := (Octet(v[0], wch, parts), UrlEncoded(v[1..]) + rest);
      assert UrlEncoded(v) + rest == Escaped(v[0]) + more;
      EscapedIsRead(v[0], more, wch, parts);
      hide Octet, Escaped, Decode, UrlEncoded;
      if one.Go? {
        EncodedIsFed(v[1..], rest, one.wch, one.parts);
        var t := Feed(v[1..], one.wch, one.parts);
        if t.Go? { PrependTwice(one.out, t.out, Decode(rest, t.wch, t.parts)); }
      }
    }
  }

  lemma NothingToPrepend(r: Result)
    ensures Prepend([], r) == r
  {
    if r.Ok? { assert [] + r.path == r.path; }
  }

  /** What survives the round trip: not U+007F, whose octet is ignored, nor characters whose UTF-8 starts
      with E0 or with F0 and up. */
  predicate Kept(c: Scalar) { 0x20 <= c < 0x7F || 0x80 <= c < 0x800 || 0x1000 <= c < 0x10000 }

  lemma ContinuationBits(x: bv32)
    ensures 0x80 <= Continuation(x) <= 0xBF && (Continuation(x) as bv32) & 0x3F == x & 0x3F
  {
  }

  /** A continuation octet with no character pending is counted and forgotten. */
  lemma Ignored(x: bv32, wch: bv32, parts: int)
    requires parts <= 0
    ensures var step := Octet(Continuation(x), wch, parts); step.Go? && step.out == [] && step.parts == parts - 1
  {
    ContinuationBits(x);
    hide Continuation;
  }

  lemma ContinuationOctet(b: bv8, w: bv32, parts: int)
    requires 0x80 <= b <= 0xBF
    ensures var w' := Pending(b as bv32, w, parts);
            Octet(b, w, parts) == Go(if parts == 1 then [w'] else [], w', parts - 1)
  {
  }

  lemma LeadStep(b: bv8, wch: bv32, parts: int)
    ensures 0xC0 < b <= 0xDF ==> Octet(b, wch, parts) == Go([], ((b as bv32) & 0x1F) << 6, 1)
    ensures 0xE0 < b <= 0xEF ==> Octet(b, wch, parts) == Go([], ((b as bv32) & 0xF) << 12, 2)
  {
  }

  /** The pending character before the last octet, and before the last two. */
  function Clear6(c: bv32): bv32 { (c >> 6) << 6 }
  function Clear12(c: bv32): bv32 { (c >> 12) << 12 }

  lemma LeadStep2(c: Scalar, wch: bv32, parts: int)
    requires 0x80 <= c < 0x800
    ensures Octet(Lead2(c), wch, parts) == Go([], Clear6(c), 1)
  {
    assert 0xC0 < Lead2(c) <= 0xDF && ((Lead2(c) as bv32) & 0x1F) << 6 == Clear6(c);
    LeadStep(Lead2(c), wch, parts);
    hide *;
  }

  lemma LeadStep3(c: Scalar, wch: bv32, parts: int)
    requires 0x1000 <= c < 0x10000
    ensures Octet(Lead3(c), wch, parts) == Go([], Clear12(c), 2)
  {
    assert 0xE0 < Lead3(c) <= 0xEF && ((Lead3(c) as bv32) & 0xF) << 12 == Clear12(c);
    LeadStep(Lead3(c), wch, parts);
    hide *;
  }

  lemma LastBits(c: Scalar)
    ensures Pending(Continuation(c) as bv32, Clear6(c), 1) == c
  {
  }

  lemma MiddleBits(c: Scalar)
    ensures Pending(Continuation(Skip6(c)) as bv32, Clear12(c), 2) == Clear6(c)
  {
  }

  lemma LastStep(c: Scalar)
    ensures Octet(Continuation(c), Clear6(c), 1) == Go([c], c, 0)
  {
    hide *;
    LastBits(c);
    ContinuationBits(c);
    ContinuationOctet(Continuation(c), Clear6(c), 1);
  }

  lemma MiddleStep(c: Scalar)
    ensures Octet(Continuation(Skip6(c)), Clear12(c), 2) == Go([], Clear6(c), 1)
  {
    hide *;
    MiddleBits(c);
    ContinuationBits(Skip6(c));
    ContinuationOctet(Continuation(Skip6(c)), Clear12(c), 2);
  }

  lemma TwoOctets(c: Scalar, wch: bv32, parts: int)
    requires 0x80 <= c < 0x800
    ensures Feed([Lead2(c), Continuation(c)], wch, parts) == Go([c], c, 0)
  {
    hide *;
    LeadStep2(c, wch, parts);
    LastStep(c);
    FedFirst(Lead2(c), [Continuation(c)], wch, parts);
    FedOne(Continuation(c), Clear6(c), 1);
    assert [Lead2(c), Continuation(c)] == [Lead2(c)] + [Continuation(c)];
  }

  lemma ThreeOctets(c: Scalar, wch: bv32, parts: int)
    requires 0x1000 <= c < 0x10000
    ensures Feed([Lead3(c), Continuation(Skip6(c)), Continuation(c)], wch, parts) == Go([c], c, 0)
  {
    var (a, b) := (Continuation(Skip6(c)), Continuation(c));
    hide *;
    LeadStep3(c, wch, parts);
    MiddleStep(c);
    LastStep(c);
    FedFirst(Lead3(c), [a, b], wch, parts);
    FedFirst(a, [b], Clear12(c), 2);
    FedOne(b, Clear6(c), 1);
    assert [Lead3(c), a, b] == [Lead3(c)] + [a, b] && [a, b] == [a] + [b];
  }

  lemma LeadIgnored(c: Scalar, wch: bv32, parts: int)
    requires 0x800 <= c < 0x1000 || 0x10000 <= c < 0x110000
    ensures Octet(Utf8Of(c)[0], wch, parts) == Go([], wch, parts)
  {
  }

  lemma FedFirst(b: bv8, v: Octets, wch: bv32, parts: int)
    ensures var one := Octet(b, wch, parts);
            one.Go? && one.out == [] ==> Feed([b] + v, wch, parts) == Feed(v, one.wch, one.parts)
  {
    hide Octet;
    var one := Octet(b, wch, parts);
    assert ([b] + v)[1..] == v;
    if one.Go? && one.out == [] {
      var rest := Feed(v, one.wch, one.parts);
      if rest.Go? { assert [] + rest.out == rest.out; }
    }
  }

  lemma FedOne(b: bv8, wch: bv32, parts: int)
    ensures Feed([b], wch, parts) == Octet(b, wch, parts)
  {
    hide Octet;
    var one := Octet(b, wch, parts);
    if one.Go? { assert one.out + [] == one.out; }
  }

  lemma CharIsFed(c: Scalar, wch: bv32, parts: int)
    requires c < 0x110000 && parts <= 0
    ensures var step := Feed(Utf8Of(c), wch, parts);
            if c < 0x20 then step.Reject?
            else step.Go? && step.out == (if Kept(c) then [c] else []) && step.parts <= 0
  {
    if c < 0x80 {
      FedOne(Narrow(c), wch, parts);
    } else if c < 0x800 {
      TwoOctets(c, wch, parts);
    } else if c < 0x1000 {
      LeadIgnored(c, wch, parts);
      hide Octet, Continuation, Feed, Skip6, Lead3;
      Dropped2(Skip6(c), c, wch, parts);
      FedFirst(Lead3(c), [Continuation(Skip6(c)), Continuation(c)], wch, parts);
    } else if c < 0x10000 {
      ThreeOctets(c, wch, parts);
    } else {
      LeadIgnored(c, wch, parts);
      hide Octet, Continuation, Feed, Skip6, Skip12, Lead4;
      Dropped3(Skip12(c), Skip6(c), c, wch, parts);
      FedFirst(Lead4(c), [Continuation(Skip12(c)), Continuation(Skip6(c)), Continuation(c)], wch, parts);
    }
  }

  lemma Dropped3(x: bv32, y: bv32, z: bv32, wch: bv32, parts: int)
    requires parts <= 0
    ensures var step := Feed([Continuation(x), Continuation(y), Continuation(z)], wch, parts);
            step.Go? && step.out == [] && step.parts <= 0
  {
    var (a, b, d) := (Continuation(x), Continuation(y), Continuation(z));
    Ignored(x, wch, parts);
    var one := Octet(a, wch, parts);
    Dropped2(y, z, one.wch, one.parts);
    hide *;
    FedFirst(a, [b, d], wch, parts);
    assert [a, b, d] == [a] + [b, d];
  }

  lemma Dropped2(x: bv32, y: bv32, wch: bv32, parts: int)
    requires parts <= 0
    ensures var step := Feed([Continuation(x), Continuation(y)], wch, parts);
            step.Go? && step.out == [] && step.parts <= 0
  {
    var (a, b) := (Continuation(x), Continuation(y));
    Ignored(x, wch, parts);
    var one := Octet(a, wch, parts);
    Ignored(y, one.wch, one.parts);
    hide Octet, Continuation;
    FedFirst(a, [b], wch, parts);
    FedOne(b, one.wch, one.parts);
    assert [a, b] == [a] + [b];
  }

  lemma NoMarkInside(c: Scalar)
    requires c < 0x110000
    ensures NoMark(Utf8Of(c)) <==> c != 0x3F
  {
    ContinuationBits(c);
    ContinuationBits(Skip6(c));
    ContinuationBits(Skip12(c));
    assert Lead2(c) >= 0xC0 && Lead3(c) >= 0xE0 && Lead4(c) >= 0xF0;
    hide Continuation, Skip6, Skip12, Lead2, Lead3, Lead4;
    if c == 0x3F { assert Utf8Of(c)[0] == 0x3F; }
  }

  // ----- main results -----

  /** What the decoder makes of the encoded text: control characters are refused, characters that do not
      survive vanish, and the first question mark starts the query, which stays encoded. */
  function Expected(s: seq<Scalar>): Result {
    if s == [] then Ok([], [])
    else if s[0] == 0x3F then Ok([], UrlEncoded(Utf8(s[1..])))
    else if s[0] < 0x20 then BadRequest
    else Prepend(if Kept(s[0]) then [s[0]] else [], Expected(s[1..]))
  }

  predicate Text(s: seq<Scalar>) { forall i :: 0 <= i < |s| ==> s[i] < 0x110000 }

  lemma {:induction false} EncodedAppend(v: Octets, w: Octets)
    ensures UrlEncoded(v + w) == UrlEncoded(v) + UrlEncoded(w)
    decreases |v|
  {
    if v == [] {
      assert v + w == w;
    } else {
      hide Escaped;
      assert (v + w)[1..] == v[1..] + w && (v + w)[0] == v[0];
      EncodedAppend(v[1..], w);
    }
  }

  lemma MarkStartsQuery(rest: Octets, wch: bv32, parts: int)
    ensures Decode(UrlEncoded(Utf8Of(0x3F)) + rest, wch, parts) == Ok([], rest)
  {
    assert Utf8Of(0x3F) == [0x3F] && Escaped(0x3F) == [0x3F];
    assert UrlEncoded([0x3F]) == [0x3F] + [] == [0x3F];
    assert ([0x3F] + rest)[1..] == rest;
  }

  lemma {:induction false} DecodesAsExpected(s: seq<Scalar>, wch: bv32, parts: int)
    requires Text(s) && parts <= 0
    ensures Decode(UrlEncoded(Utf8(s)), wch, parts) == Expected(s)
    decreases |s|
  {
    hide *;
    if s == [] {
      EmptyIsDecoded(wch, parts);
    } else {
      var (c, tail) := (s[0], s[1..]);
      var rest := UrlEncoded(Utf8(tail));
      EncodedFirst(s);
      ExpectedFirst(s);
      if c == 0x3F {
        MarkStartsQuery(rest, wch, parts);
      } else {
        var w', p' := CharIsDecoded(c, rest, wch, parts);
        if c >= 0x20 { DecodesAsExpected(tail, w', p'); }
      }
    }
  }

  lemma EmptyIsDecoded(wch: bv32, parts: int)
    ensures Decode(UrlEncoded(Utf8([])), wch, parts) == Expected([])
  {
  }

  lemma EncodedFirst(s: seq<Scalar>)
    requires s != []
    ensures UrlEncoded(Utf8(s)) == UrlEncoded(Utf8Of(s[0])) + UrlEncoded(Utf8(s[1..]))
  {
    EncodedAppend(Utf8Of(s[0]), Utf8(s[1..]));
  }

  lemma ExpectedFirst(s: seq<Scalar>)
    requires s != []
    ensures Expected(s) ==
            if s[0] == 0x3F then Ok([], UrlEncoded(Utf8(s[1..])))
            else if s[0] < 0x20 then BadRequest
            else Prepend(if Kept(s[0]) then [s[0]] else [], Expected(s[1..]))
    ensures Text(s) ==> s[0] < 0x110000 && Text(s[1..])
  {
  }

  lemma CharIsDecoded(c: Scalar, rest: Octets, wch: bv32, parts: int) returns (w': bv32, p': int)
    requires c < 0x110000 && c != 0x3F && parts <= 0
    ensures p' <= 0
    ensures Decode(UrlEncoded(Utf8Of(c)) + rest, wch, parts) ==
            if c < 0x20 then BadRequest else Prepend(if Kept(c) then [c] else [], Decode(rest, w', p'))
  {
    hide Decode, Utf8Of, UrlEncoded, Feed, Kept;
    NoMarkInside(c);
    CharIsFed(c, wch, parts);
    EncodedIsFed(Utf8Of(c), rest, wch, parts);
    var step := Feed(Utf8Of(c), wch, parts);
    w', p' := if step.Go? then step.wch else 0, if step.Go? then step.parts else 0;
  }

  /** The path comes back, with no query, exactly when every character is one that survives. */
  lemma RoundTripIff(s: seq<Scalar>)
    requires Text(s)
    ensures Decode(UrlEncoded(Utf8(s)), 0, 0) == Ok(s, []) <==> forall i :: 0 <= i < |s| ==> Kept(s[i]) && s[i] != 0x3F
  {
    DecodesAsExpected(s, 0, 0);
    ExpectedIff(s);
  }

  predicate AllKept(s: seq<Scalar>) { forall i :: 0 <= i < |s| ==> Kept(s[i]) && s[i] != 0x3F }

  lemma AllKeptFirst(s: seq<Scalar>)
    requires s != []
    ensures AllKept(s) <==> Kept(s[0]) && s[0] != 0x3F && AllKept(s[1..])
  {
    hide Kept;
    assert forall i :: 1 <= i < |s| ==> s[i] == s[1..][i - 1];
  }

  lemma SamePath(c: bv32, path: seq<bv32>, s: seq<Scalar>)
    requires s != [] && s[0] == c
    ensures [c] + path == s <==> path == s[1..]
    ensures [] + path == path
  {
    assert ([c] + path)[1..] == path && [c] + s[1..] == s;
  }

  lemma {:induction false} ExpectedIff(s: seq<Scalar>)
    ensures Expected(s) == Ok(s, []) <==> AllKept(s)
    ensures Expected(s).Ok? ==> |Expected(s).path| <= |s|
    decreases |s|
  {
    if s != [] {
      AllKeptFirst(s);
      hide Kept, AllKept, UrlEncoded, Utf8;
      ExpectedIff(s[1..]);
      var r := Expected(s[1..]);
      if r.Ok? { SamePath(s[0], r.path, s); }
    }
  }

  // ----- the loop of the request handler -----

  /** One turn of the loop, at position `n`. */
  lemma DecodeTurn(p: Octets, n: nat, wch: bv32, parts: int)
    requires n < |p|
    ensures Decode(p[n..], wch, parts) ==
            if p[n] == 0x25 then
              if n + 2 >= |p| || !IsXDigit(p[n + 1]) || !IsXDigit(p[n + 2]) then BadRequest
              else Then(Octet(16 * Nibble(p[n + 1]) + Nibble(p[n + 2]), wch, parts), p[n + 3..])
            else if p[n] == 0x3F then Ok([], p[n + 1..])
            else Prepend([Widened(p[n])], Decode(p[n + 1..], wch, parts))
  {
    var left := p[n..];
    assert left[1..] == p[n + 1..] && (n + 3 <= |p| ==> left[3..] == p[n + 3..]);
    hide Octet, IsXDigit, Nibble, Widened;
  }

  method DecodePath(p: Octets) returns (ok: bool, strItemPath: seq<bv32>, strQuery: Octets)
    ensures (if ok then Ok(strItemPath, strQuery) else BadRequest) == Decode(p, 0, 0)
  {
    strItemPath, strQuery := [], [];
    var wch: bv32, nAnzParts: int, n: nat := 0, 0, 0;
    NothingToPrepend(Decode(p, 0, 0));
    assert p[0..] == p;
    while n < |p|
      invariant n <= |p| && strQuery == []
      invariant Decode(p, 0, 0) == Prepend(strItemPath, Decode(p[n..], wch, nAnzParts))
    {
      DecodeTurn(p, n, wch, nAnzParts);
      hide Octet, IsXDigit, Nibble, Widened, Decode;
      if p[n] == 0x25 {
        if n + 2 >= |p| || !IsXDigit(p[n + 1]) || !IsXDigit(p[n + 2]) { return false, [], []; }
        var step := Octet(16 * Nibble(p[n + 1]) + Nibble(p[n + 2]), wch, nAnzParts);
        if step.Reject? { return false, [], []; }
        PrependTwice(strItemPath, step.out, Decode(p[n + 3..], step.wch, step.parts));
        strItemPath, wch, nAnzParts := strItemPath + step.out, step.wch, step.parts;
        n := n + 3;
      } else if p[n] == 0x3F {
        strQuery := p[n + 1..];
        assert strItemPath + [] == strItemPath;
        return true, strItemPath, strQuery;
      } else {
        PrependTwice(strItemPath, [Widened(p[n])], Decode(p[n + 1..], wch, nAnzParts));
        strItemPath := strItemPath + [Widened(p[n])];
        n := n + 1;
      }
    }
    assert strItemPath + [] == strItemPath;
    return true, strItemPath, strQuery;
  }
}
