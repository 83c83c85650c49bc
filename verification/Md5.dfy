/** MD5 as a streaming object, proved against RFC 1321. */
module Md5 {
  import opened Basics
  import opened BlockHash

  const TWO_32: nat := 0x1_0000_0000
  const TWO_64: nat := 0x1_0000_0000_0000_0000

  // ----- RFC 1321, section 3 -----

  datatype Regs = Regs(a: bv32, b: bv32, c: bv32, d: bv32)

  const INIT := Regs(0x67452301, 0xefcdab89, 0x98badcfe, 0x10325476)

  function F(x: bv32, y: bv32, z: bv32): bv32 { (x & y) | (!x & z) }
  function G(x: bv32, y: bv32, z: bv32): bv32 { (x & z) | (y & !z) }
  function H(x: bv32, y: bv32, z: bv32): bv32 { x ^ y ^ z }
  function I(x: bv32, y: bv32, z: bv32): bv32 { y ^ (x | !z) }

  function RotateLeft(x: bv32, n: bv6): bv32
    requires 0 < n < 32
  {
    (x << n) | (x >> (32 - n))
  }

  function Mix(i: nat, x: bv32, y: bv32, z: bv32): bv32 {
    if i < 16 then F(x, y, z) else if i < 32 then G(x, y, z) else if i < 48 then H(x, y, z) else I(x, y, z)
  }

  /** Section 3.4, line by line: which word, how far to rotate, and the element of T. */
  datatype Line = Line(k: nat, s: bv6, t: bv32)

  function Table1(j: nat): (e: Line)
    requires j < 16
    ensures e.k < 16 && 0 < e.s < 32
  {
    match j
    case 0 => Line(0, 7, 0xd76aa478) case 1 => Line(1, 12, 0xe8c7b756)
    case 2 => Line(2, 17, 0x242070db) case 3 => Line(3, 22, 0xc1bdceee)
    case 4 => Line(4, 7, 0xf57c0faf) case 5 => Line(5, 12, 0x4787c62a)
    case 6 => Line(6, 17, 0xa8304613) case 7 => Line(7, 22, 0xfd469501)
    case 8 => Line(8, 7, 0x698098d8) case 9 => Line(9, 12, 0x8b44f7af)
    case 10 => Line(10, 17, 0xffff5bb1) case 11 => Line(11, 22, 0x895cd7be)
    case 12 => Line(12, 7, 0x6b901122) case 13 => Line(13, 12, 0xfd987193)
    case 14 => Line(14, 17, 0xa679438e) case _ => Line(15, 22, 0x49b40821)
  }

  function Table2(j: nat): (e: Line)
    requires j < 16
    ensures e.k < 16 && 0 < e.s < 32
  {
    match j
    case 0 => Line(1, 5, 0xf61e2562) case 1 => Line(6, 9, 0xc040b340)
    case 2 => Line(11, 14, 0x265e5a51) case 3 => Line(0, 20, 0xe9b6c7aa)
    case 4 => Line(5, 5, 0xd62f105d) case 5 => Line(10, 9, 0x02441453)
    case 6 => Line(15, 14, 0xd8a1e681) case 7 => Line(4, 20, 0xe7d3fbc8)
    case 8 => Line(9, 5, 0x21e1cde6) case 9 => Line(14, 9, 0xc33707d6)
    case 10 => Line(3, 14, 0xf4d50d87) case 11 => Line(8, 20, 0x455a14ed)
    case 12 => Line(13, 5, 0xa9e3e905) case 13 => Line(2, 9, 0xfcefa3f8)
    case 14 => Line(7, 14, 0x676f02d9) case _ => Line(12, 20, 0x8d2a4c8a)
  }

  function Table3(j: nat): (e: Line)
    requires j < 16
    ensures e.k < 16 && 0 < e.s < 32
  {
    match j
    case 0 => Line(5, 4, 0xfffa3942) case 1 => Line(8, 11, 0x8771f681)
    case 2 => Line(11, 16, 0x6d9d6122) case 3 => Line(14, 23, 0xfde5380c)
    case 4 => Line(1, 4, 0xa4beea44) case 5 => Line(4, 11, 0x4bdecfa9)
    case 6 => Line(7, 16, 0xf6bb4b60) case 7 => Line(10, 23, 0xbebfbc70)
    case 8 => Line(13, 4, 0x289b7ec6) case 9 => Line(0, 11, 0xeaa127fa)
    case 10 => Line(3, 16, 0xd4ef3085) case 11 => Line(6, 23, 0x04881d05)
    case 12 => Line(9, 4, 0xd9d4d039) case 13 => Line(12, 11, 0xe6db99e5)
    case 14 => Line(15, 16, 0x1fa27cf8) case _ => Line(2, 23, 0xc4ac5665)
  }

  function Table4(j: nat): (e: Line)
    requires j < 16
    ensures e.k < 16 && 0 < e.s < 32
  {
    match j
    case 0 => Line(0, 6, 0xf4292244) case 1 => Line(7, 10, 0x432aff97)
    case 2 => Line(14, 15, 0xab9423a7) case 3 => Line(5, 21, 0xfc93a039)
    case 4 => Line(12, 6, 0x655b59c3) case 5 => Line(3, 10, 0x8f0ccc92)
    case 6 => Line(10, 15, 0xffeff47d) case 7 => Line(1, 21, 0x85845dd1)
    case 8 => Line(8, 6, 0x6fa87e4f) case 9 => Line(15, 10, 0xfe2ce6e0)
    case 10 => Line(6, 15, 0xa3014314) case 11 => Line(13, 21, 0x4e0811a1)
    case 12 => Line(4, 6, 0xf7537e82) case 13 => Line(11, 10, 0xbd3af235)
    case 14 => Line(2, 15, 0x2ad7d2bb) case _ => Line(9, 21, 0xeb86d391)
  }

  function Entry(i: nat): (e: Line)
    requires i < 64
    ensures e.k < 16 && 0 < e.s < 32
  {
    if i < 16 then Table1(i) else if i < 32 then Table2(i - 16) else if i < 48 then Table3(i - 32) else Table4(i - 48)
  }

  /** Addition is modulo 2^32. */
  function Plus(x: bv32, y: bv32): bv32 { x + y }
  function Sum4(a: bv32, m: bv32, x: bv32, t: bv32): bv32 { a + m + x + t }

  /** Step i: a = b + ((a + Mix + X[k] + T[i]) <<< s), then the registers change roles. */
  function Step(v: Regs, x: seq<bv32>, i: nat): Regs
    requires |x| == 16 && i < 64
  {
    var e := Entry(i);
    Regs(v.d, Plus(v.b, RotateLeft(Sum4(v.a, Mix(i, v.b, v.c, v.d), x[e.k], e.t), e.s)), v.b, v.c)
  }

  function Steps(v: Regs, x: seq<bv32>, n: nat): Regs
    requires |x| == 16 && n <= 64
  {
    if n == 0 then v else Step(Steps(v, x, n - 1), x, n - 1)
  }

  /** A little-endian word, and back. */
  function Pack(b: seq<bv8>): bv32
    requires |b| == 4
  {
    (b[0] as bv32) | ((b[1] as bv32) << 8) | ((b[2] as bv32) << 16) | ((b[3] as bv32) << 24)
  }

  function Unpack(x: bv32): (b: seq<bv8>)
    ensures |b| == 4 && Pack(b) == x
  {
    [(x & 0xff) as bv8, ((x >> 8) & 0xff) as bv8, ((x >> 16) & 0xff) as bv8, ((x >> 24) & 0xff) as bv8]
  }

  function Words(block: Block): (x: seq<bv32>)
    ensures |x| == 16
  {
    seq(16, j requires 0 <= j < 16 => Pack(block[4 * j..4 * j + 4]))
  }

  function Added(x: Regs, y: Regs): Regs { Regs(Plus(x.a, y.a), Plus(x.b, y.b), Plus(x.c, y.c), Plus(x.d, y.d)) }

  function Compress(v: Regs, block: Block): Regs { Added(v, Steps(v, Words(block), 64)) }

  function Zeros(n: nat): seq<bv8> { seq(n, i => 0) }

  /** How many bytes bring a message of n bytes to 56 modulo 64: one at least. */
  function PadLen(n: nat): (p: nat)
    ensures 1 <= p <= BLOCK && (n + p + 8) % BLOCK == 0
  {
    var r := n % BLOCK;
    if r < 56 then 56 - r else 120 - r
  }

  /** The number of bits, low word first, modulo 2^64. */
  function Low(n: nat): bv32 { (8 * n % TWO_32) as bv32 }
  function High(n: nat): bv32 { (8 * n / TWO_32 % TWO_32) as bv32 }

  /** Sections 3.1 and 3.2. */
  function Padding(n: nat): (p: seq<bv8>)
    ensures (n + |p|) % BLOCK == 0
  {
    [0x80] + Zeros(PadLen(n) - 1) + (Unpack(Low(n)) + Unpack(High(n)))
  }

  /** Section 3.5: A first, low byte first. */
  function Bytes(v: Regs): seq<bv8> { Unpack(v.a) + Unpack(v.b) + Unpack(v.c) + Unpack(v.d) }

  function Digest(msg: seq<bv8>): seq<bv8> { Bytes(Absorb(Compress, INIT, msg + Padding(|msg|))) }

  // ----- the macros -----

  function FF(a: bv32, b: bv32, c: bv32, d: bv32, x: bv32, s: bv6, ac: bv32): bv32
    requires 0 < s < 32
  {
    Plus(RotateLeft(Sum4(a, F(b, c, d), x, ac), s), b)
  }

  function GG(a: bv32, b: bv32, c: bv32, d: bv32, x: bv32, s: bv6, ac: bv32): bv32
    requires 0 < s < 32
  {
    Plus(RotateLeft(Sum4(a, G(b, c, d), x, ac), s), b)
  }

  function HH(a: bv32, b: bv32, c: bv32, d: bv32, x: bv32, s: bv6, ac: bv32): bv32
    requires 0 < s < 32
  {
    Plus(RotateLeft(Sum4(a, H(b, c, d), x, ac), s), b)
  }

  function II(a: bv32, b: bv32, c: bv32, d: bv32, x: bv32, s: bv6, ac: bv32): bv32
    requires 0 < s < 32
  {
    Plus(RotateLeft(Sum4(a, I(b, c, d), x, ac), s), b)
  }

  const S11: bv6 := 7
  const S12: bv6 := 12
  const S13: bv6 := 17
  const S14: bv6 := 22
  const S21: bv6 := 5
  const S22: bv6 := 9
  const S23: bv6 := 14
  const S24: bv6 := 20
  const S31: bv6 := 4
  const S32: bv6 := 11
  const S33: bv6 := 16
  const S34: bv6 := 23
  const S41: bv6 := 6
  const S42: bv6 := 10
  const S43: bv6 := 15
  const S44: bv6 := 21

  /** A step of the table is one call of the macro of its round. */
  lemma StepIsMacro(v: Regs, x: seq<bv32>, i: nat)
    requires |x| == 16 && i < 64
    ensures var Line(k, s, t) := Entry(i);
            Step(v, x, i) ==
            Regs(v.d,
                 if i < 16 then FF(v.a, v.b, v.c, v.d, x[k], s, t)
                 else if i < 32 then GG(v.a, v.b, v.c, v.d, x[k], s, t)
                 else if i < 48 then HH(v.a, v.b, v.c, v.d, x[k], s, t)
                 else II(v.a, v.b, v.c, v.d, x[k], s, t),
                 v.b, v.c)
  {
    assert forall y: bv32, z: bv32 :: Plus(y, z) == Plus(z, y);
    hide Entry, F, G, H, I, RotateLeft, Sum4, Plus;
  }

  lemma FFStep(v: Regs, x: seq<bv32>, i: nat, e: Line, a: bv32, b: bv32, c: bv32, d: bv32)
    requires |x| == 16 && 0 <= i < 16 && Steps(v, x, i) == Regs(a, b, c, d) && e == Entry(i)
    ensures Steps(v, x, i + 1) == Regs(d, FF(a, b, c, d, x[e.k], e.s, e.t), b, c)
  {
    hide Entry, FF, GG, HH, II, Step;
    StepIsMacro(Regs(a, b, c, d), x, i);
  }

  lemma GGStep(v: Regs, x: seq<bv32>, i: nat, e: Line, a: bv32, b: bv32, c: bv32, d: bv32)
    requires |x| == 16 && 16 <= i < 32 && Steps(v, x, i) == Regs(a, b, c, d) && e == Entry(i)
    ensures Steps(v, x, i + 1) == Regs(d, GG(a, b, c, d, x[e.k], e.s, e.t), b, c)
  {
    hide Entry, FF, GG, HH, II, Step;
    StepIsMacro(Regs(a, b, c, d), x, i);
  }

  lemma HHStep(v: Regs, x: seq<bv32>, i: nat, e: Line, a: bv32, b: bv32, c: bv32, d: bv32)
    requires |x| == 16 && 32 <= i < 48 && Steps(v, x, i) == Regs(a, b, c, d) && e == Entry(i)
    ensures Steps(v, x, i + 1) == Regs(d, HH(a, b, c, d, x[e.k], e.s, e.t), b, c)
  {
    hide Entry, FF, GG, HH, II, Step;
    StepIsMacro(Regs(a, b, c, d), x, i);
  }

  lemma IIStep(v: Regs, x: seq<bv32>, i: nat, e: Line, a: bv32, b: bv32, c: bv32, d: bv32)
    requires |x| == 16 && 48 <= i < 64 && Steps(v, x, i) == Regs(a, b, c, d) && e == Entry(i)
    ensures Steps(v, x, i + 1) == Regs(d, II(a, b, c, d, x[e.k], e.s, e.t), b, c)
  {
    hide Entry, FF, GG, HH, II, Step;
    StepIsMacro(Regs(a, b, c, d), x, i);
  }

  lemma Entries1()
    ensures Entry(0) == Line(0, S11, 0xd76aa478) && Entry(1) == Line(1, S12, 0xe8c7b756)
    ensures Entry(2) == Line(2, S13, 0x242070db) && Entry(3) == Line(3, S14, 0xc1bdceee)
    ensures Entry(4) == Line(4, S11, 0xf57c0faf) && Entry(5) == Line(5, S12, 0x4787c62a)
    ensures Entry(6) == Line(6, S13, 0xa8304613) && Entry(7) == Line(7, S14, 0xfd469501)
    ensures Entry(8) == Line(8, S11, 0x698098d8) && Entry(9) == Line(9, S12, 0x8b44f7af)
    ensures Entry(10) == Line(10, S13, 0xffff5bb1) && Entry(11) == Line(11, S14, 0x895cd7be)
    ensures Entry(12) == Line(12, S11, 0x6b901122) && Entry(13) == Line(13, S12, 0xfd987193)
    ensures Entry(14) == Line(14, S13, 0xa679438e) && Entry(15) == Line(15, S14, 0x49b40821)
  {
  }

  lemma Entries2()
    ensures Entry(16) == Line(1, S21, 0xf61e2562) && Entry(17) == Line(6, S22, 0xc040b340)
    ensures Entry(18) == Line(11, S23, 0x265e5a51) && Entry(19) == Line(0, S24, 0xe9b6c7aa)
    ensures Entry(20) == Line(5, S21, 0xd62f105d) && Entry(21) == Line(10, S22, 0x2441453)
    ensures Entry(22) == Line(15, S23, 0xd8a1e681) && Entry(23) == Line(4, S24, 0xe7d3fbc8)
    ensures Entry(24) == Line(9, S21, 0x21e1cde6) && Entry(25) == Line(14, S22, 0xc33707d6)
    ensures Entry(26) == Line(3, S23, 0xf4d50d87) && Entry(27) == Line(8, S24, 0x455a14ed)
    ensures Entry(28) == Line(13, S21, 0xa9e3e905) && Entry(29) == Line(2, S22, 0xfcefa3f8)
    ensures Entry(30) == Line(7, S23, 0x676f02d9) && Entry(31) == Line(12, S24, 0x8d2a4c8a)
  {
  }

  lemma Entries3()
    ensures Entry(32) == Line(5, S31, 0xfffa3942) && Entry(33) == Line(8, S32, 0x8771f681)
    ensures Entry(34) == Line(11, S33, 0x6d9d6122) && Entry(35) == Line(14, S34, 0xfde5380c)
    ensures Entry(36) == Line(1, S31, 0xa4beea44) && Entry(37) == Line(4, S32, 0x4bdecfa9)
    ensures Entry(38) == Line(7, S33, 0xf6bb4b60) && Entry(39) == Line(10, S34, 0xbebfbc70)
    ensures Entry(40) == Line(13, S31, 0x289b7ec6) && Entry(41) == Line(0, S32, 0xeaa127fa)
    ensures Entry(42) == Line(3, S33, 0xd4ef3085) && Entry(43) == Line(6, S34, 0x4881d05)
    ensures Entry(44) == Line(9, S31, 0xd9d4d039) && Entry(45) == Line(12, S32, 0xe6db99e5)
    ensures Entry(46) == Line(15, S33, 0x1fa27cf8) && Entry(47) == Line(2, S34, 0xc4ac5665)
  {
  }

  lemma Entries4()
    ensures Entry(48) == Line(0, S41, 0xf4292244) && Entry(49) == Line(7, S42, 0x432aff97)
    ensures Entry(50) == Line(14, S43, 0xab9423a7) && Entry(51) == Line(5, S44, 0xfc93a039)
    ensures Entry(52) == Line(12, S41, 0x655b59c3) && Entry(53) == Line(3, S42, 0x8f0ccc92)
    ensures Entry(54) == Line(10, S43, 0xffeff47d) && Entry(55) == Line(1, S44, 0x85845dd1)
    ensures Entry(56) == Line(8, S41, 0x6fa87e4f) && Entry(57) == Line(15, S42, 0xfe2ce6e0)
    ensures Entry(58) == Line(6, S43, 0xa3014314) && Entry(59) == Line(13, S44, 0x4e0811a1)
    ensures Entry(60) == Line(4, S41, 0xf7537e82) && Entry(61) == Line(11, S42, 0xbd3af235)
    ensures Entry(62) == Line(2, S43, 0x2ad7d2bb) && Entry(63) == Line(9, S44, 0xeb86d391)
  {
  }

  lemma StepsStart(v: Regs, x: seq<bv32>)
    requires |x| == 16
    ensures Steps(v, x, 0) == v
  {
  }

  function FromArray(state: seq<bv32>): Regs
    requires |state| == 4
  {
    Regs(state[0], state[1], state[2], state[3])
  }

  // ----- the bit counter -----

  /** count[0] and count[1] after `length` more bytes, with the carry taken by hand. */
  function Counted(lo: nat, hi: nat, length: nat): (nat, nat) {
    var bits := length * 8 % TWO_32;
    var lo' := (lo + bits) % TWO_32;
    (lo', (hi + (if lo' < bits then 1 else 0) + length / 0x2000_0000) % TWO_32)
  }

  predicate Counts(lo: nat, hi: nat, n: nat) { lo == 8 * n % TWO_32 && hi == 8 * n / TWO_32 % TWO_32 }

  /** The two words hold eight times the number of bytes modulo 2^64, carry included. */
  lemma CarryIsExact(lo: nat, hi: nat, n: nat, length: nat)
    requires Counts(lo, hi, n) && length < TWO_32
    ensures Counts(Counted(lo, hi, length).0, Counted(lo, hi, length).1, n + length)
  {
    var (x, y) := (8 * n, 8 * length);
    assert y / TWO_32 == length / 0x2000_0000;
    SumParts(x, y);
  }

  lemma SumParts(x: nat, y: nat)
    ensures var carry := if (x % TWO_32 + y % TWO_32) % TWO_32 < y % TWO_32 then 1 else 0;
            && (x + y) % TWO_32 == (x % TWO_32 + y % TWO_32) % TWO_32
            && (x + y) / TWO_32 % TWO_32 == (x / TWO_32 % TWO_32 + carry + y / TWO_32) % TWO_32
  {
    var carry := if x % TWO_32 + y % TWO_32 >= TWO_32 then 1 else 0;
    assert (x + y) / TWO_32 == x / TWO_32 + y / TWO_32 + carry;
  }

  // ----- the 32-bit block loop of update -----

  /** i + blocksize in 32 bits. */
  function NextIndex(i: nat): nat { (i + BLOCK) % TWO_32 }

  /** `i + blocksize <= length` is a 32-bit addition.  The last value of i does not wrap exactly when this
      holds, which is so for every length below 2^32 - 64. */
  predicate NoWrap(fill: nat, length: nat) {
    length < fill || fill + Whole(length - fill) + BLOCK < TWO_32
  }

  lemma ShortNeverWraps(fill: nat, length: nat)
    requires length < TWO_32 - BLOCK
    ensures NoWrap(fill, length)
  {
  }

  /** When it fails the loop does not stop at the end of the input. */
  lemma WrapReadsPast(fill: nat, length: nat)
    requires 1 <= fill <= BLOCK && fill <= length < TWO_32
    ensures var i := fill + Whole(length - fill);
            i + BLOCK > length && (NoWrap(fill, length) <==> !(NextIndex(i) <= length))
  {
    WholeIs(length - fill);
  }

  class MD5 {
    var finalized: bool
    const buffer: array<bv8>
    var count0: nat
    var count1: nat
    const state: array<bv32>
    var digest: seq<bv8>
    ghost var msg: seq<bv8>

    ghost predicate Shape()
      reads this
    {
      buffer.Length == BLOCK && state.Length == 4
    }

    /** While input is taken: the counter, the tail and the state all follow from the message, however it
        was split. */
    ghost predicate Taking()
      reads this, buffer, state
    {
      && Shape() && !finalized && Counts(count0, count1, |msg|)
      && buffer[..|Tail(msg)|] == Tail(msg)
      && FromArray(state[..]) == Absorbed(Compress, INIT, msg)
    }

    ghost predicate Valid()
      reads this, buffer, state
    {
      if finalized then Shape() && digest == Digest(msg) else Taking()
    }

    constructor ()
      ensures Valid() && !finalized && msg == [] && fresh(buffer) && fresh(state)
    {
      finalized, count0, count1, msg, digest := false, 0, 0, [], [];
      buffer := new bv8[BLOCK](i => 0);
      state := new bv32[] [0x67452301, 0xefcdab89, 0x98badcfe, 0x10325476];
    }

    /** decode() of one block. */
    method Decode(block: Block) returns (x: array<bv32>)
      ensures fresh(x) && x[..] == Words(block)
    {
      hide Pack;
      x := new bv32[16];
      for i := 0 to 16
        invariant forall k :: 0 <= k < i ==> x[k] == Pack(block[4 * k..4 * k + 4])
      {
        x[i] := Pack(block[4 * i..4 * i + 4]);
      }
    }

    method Transform(block: Block)
      requires state.Length == 4
      modifies state
      ensures FromArray(state[..]) == Compress(FromArray(old(state[..])), block)
    {
      var x := Decode(block);
      ghost var v := FromArray(state[..]);
      hide Steps, Words, Added;
      var u := Regs(state[0], state[1], state[2], state[3]);
      assert u == Steps(v, x[..], 0) by { StepsStart(v, x[..]); }
      u := Round1(v, x[..], u);
      u := Round2(v, x[..], u);
      u := Round3(v, x[..], u);
      u := Round4(v, x[..], u);
      AddState(u);
    }

    method AddState(u: Regs)
      requires state.Length == 4
      modifies state
      ensures FromArray(state[..]) == Added(FromArray(old(state[..])), u)
    {
      hide Plus;
      state[0] := Plus(state[0], u.a);
      state[1] := Plus(state[1], u.b);
      state[2] := Plus(state[2], u.c);
      state[3] := Plus(state[3], u.d);
    }

    /** Steps 1 to 16, as transform writes them out. */
    method Round1(ghost v: Regs, x: seq<bv32>, u: Regs) returns (w: Regs)
      requires |x| == 16 && u == Steps(v, x, 0)
      ensures w == Steps(v, x, 16)
    {
      hide FF, GG, HH, II, Step, Steps, Entry;
      Entries1();
      var (a, b, c, d) := (u.a, u.b, u.c, u.d);
      FFStep(v, x, 0, Line(0, S11, 0xd76aa478), a, b, c, d);
      a := FF(a, b, c, d, x[0], S11, 0xd76aa478);
      FFStep(v, x, 1, Line(1, S12, 0xe8c7b756), d, a, b, c);
      d := FF(d, a, b, c, x[1], S12, 0xe8c7b756);
      FFStep(v, x, 2, Line(2, S13, 0x242070db), c, d, a, b);
      c := FF(c, d, a, b, x[2], S13, 0x242070db);
      FFStep(v, x, 3, Line(3, S14, 0xc1bdceee), b, c, d, a);
      b := FF(b, c, d, a, x[3], S14, 0xc1bdceee);
      FFStep(v, x, 4, Line(4, S11, 0xf57c0faf), a, b, c, d);
      a := FF(a, b, c, d, x[4], S11, 0xf57c0faf);
      FFStep(v, x, 5, Line(5, S12, 0x4787c62a), d, a, b, c);
      d := FF(d, a, b, c, x[5], S12, 0x4787c62a);
      FFStep(v, x, 6, Line(6, S13, 0xa8304613), c, d, a, b);
      c := FF(c, d, a, b, x[6], S13, 0xa8304613);
      FFStep(v, x, 7, Line(7, S14, 0xfd469501), b, c, d, a);
      b := FF(b, c, d, a, x[7], S14, 0xfd469501);
      FFStep(v, x, 8, Line(8, S11, 0x698098d8), a, b, c, d);
      a := FF(a, b, c, d, x[8], S11, 0x698098d8);
      FFStep(v, x, 9, Line(9, S12, 0x8b44f7af), d, a, b, c);
      d := FF(d, a, b, c, x[9], S12, 0x8b44f7af);
      FFStep(v, x, 10, Line(10, S13, 0xffff5bb1), c, d, a, b);
      c := FF(c, d, a, b, x[10], S13, 0xffff5bb1);
      FFStep(v, x, 11, Line(11, S14, 0x895cd7be), b, c, d, a);
      b := FF(b, c, d, a, x[11], S14, 0x895cd7be);
      FFStep(v, x, 12, Line(12, S11, 0x6b901122), a, b, c, d);
      a := FF(a, b, c, d, x[12], S11, 0x6b901122);
      FFStep(v, x, 13, Line(13, S12, 0xfd987193), d, a, b, c);
      d := FF(d, a, b, c, x[13], S12, 0xfd987193);
      FFStep(v, x, 14, Line(14, S13, 0xa679438e), c, d, a, b);
      c := FF(c, d, a, b, x[14], S13, 0xa679438e);
      FFStep(v, x, 15, Line(15, S14, 0x49b40821), b, c, d, a);
      b := FF(b, c, d, a, x[15], S14, 0x49b40821);
      w := Regs(a, b, c, d);
    }

    /** Steps 17 to 32, as transform writes them out. */
    method Round2(ghost v: Regs, x: seq<bv32>, u: Regs) returns (w: Regs)
      requires |x| == 16 && u == Steps(v, x, 16)
      ensures w == Steps(v, x, 32)
    {
      hide FF, GG, HH, II, Step, Steps, Entry;
      Entries2();
      var (a, b, c, d) := (u.a, u.b, u.c, u.d);
      GGStep(v, x, 16, Line(1, S21, 0xf61e2562), a, b, c, d);
      a := GG(a, b, c, d, x[1], S21, 0xf61e2562);
      GGStep(v, x, 17, Line(6, S22, 0xc040b340), d, a, b, c);
      d := GG(d, a, b, c, x[6], S22, 0xc040b340);
      GGStep(v, x, 18, Line(11, S23, 0x265e5a51), c, d, a, b);
      c := GG(c, d, a, b, x[11], S23, 0x265e5a51);
      GGStep(v, x, 19, Line(0, S24, 0xe9b6c7aa), b, c, d, a);
      b := GG(b, c, d, a, x[0], S24, 0xe9b6c7aa);
      GGStep(v, x, 20, Line(5, S21, 0xd62f105d), a, b, c, d);
      a := GG(a, b, c, d, x[5], S21, 0xd62f105d);
      GGStep(v, x, 21, Line(10, S22, 0x2441453), d, a, b, c);
      d := GG(d, a, b, c, x[10], S22, 0x2441453);
      GGStep(v, x, 22, Line(15, S23, 0xd8a1e681), c, d, a, b);
      c := GG(c, d, a, b, x[15], S23, 0xd8a1e681);
      GGStep(v, x, 23, Line(4, S24, 0xe7d3fbc8), b, c, d, a);
      b := GG(b, c, d, a, x[4], S24, 0xe7d3fbc8);
      GGStep(v, x, 24, Line(9, S21, 0x21e1cde6), a, b, c, d);
      a := GG(a, b, c, d, x[9], S21, 0x21e1cde6);
      GGStep(v, x, 25, Line(14, S22, 0xc33707d6), d, a, b, c);
      d := GG(d, a, b, c, x[14], S22, 0xc33707d6);
      GGStep(v, x, 26, Line(3, S23, 0xf4d50d87), c, d, a, b);
      c := GG(c, d, a, b, x[3], S23, 0xf4d50d87);
      GGStep(v, x, 27, Line(8, S24, 0x455a14ed), b, c, d, a);
      b := GG(b, c, d, a, x[8], S24, 0x455a14ed);
      GGStep(v, x, 28, Line(13, S21, 0xa9e3e905), a, b, c, d);
      a := GG(a, b, c, d, x[13], S21, 0xa9e3e905);
      GGStep(v, x, 29, Line(2, S22, 0xfcefa3f8), d, a, b, c);
      d := GG(d, a, b, c, x[2], S22, 0xfcefa3f8);
      GGStep(v, x, 30, Line(7, S23, 0x676f02d9), c, d, a, b);
      c := GG(c, d, a, b, x[7], S23, 0x676f02d9);
      GGStep(v, x, 31, Line(12, S24, 0x8d2a4c8a), b, c, d, a);
      b := GG(b, c, d, a, x[12], S24, 0x8d2a4c8a);
      w := Regs(a, b, c, d);
    }

    /** Steps 33 to 48, as transform writes them out. */
    method Round3(ghost v: Regs, x: seq<bv32>, u: Regs) returns (w: Regs)
      requires |x| == 16 && u == Steps(v, x, 32)
      ensures w == Steps(v, x, 48)
    {
      hide FF, GG, HH, II, Step, Steps, Entry;
      Entries3();
      var (a, b, c, d) := (u.a, u.b, u.c, u.d);
      HHStep(v, x, 32, Line(5, S31, 0xfffa3942), a, b, c, d);
      a := HH(a, b, c, d, x[5], S31, 0xfffa3942);
      HHStep(v, x, 33, Line(8, S32, 0x8771f681), d, a, b, c);
      d := HH(d, a, b, c, x[8], S32, 0x8771f681);
      HHStep(v, x, 34, Line(11, S33, 0x6d9d6122), c, d, a, b);
      c := HH(c, d, a, b, x[11], S33, 0x6d9d6122);
      HHStep(v, x, 35, Line(14, S34, 0xfde5380c), b, c, d, a);
      b := HH(b, c, d, a, x[14], S34, 0xfde5380c);
      HHStep(v, x, 36, Line(1, S31, 0xa4beea44), a, b, c, d);
      a := HH(a, b, c, d, x[1], S31, 0xa4beea44);
      HHStep(v, x, 37, Line(4, S32, 0x4bdecfa9), d, a, b, c);
      d := HH(d, a, b, c, x[4], S32, 0x4bdecfa9);
      HHStep(v, x, 38, Line(7, S33, 0xf6bb4b60), c, d, a, b);
      c := HH(c, d, a, b, x[7], S33, 0xf6bb4b60);
      HHStep(v, x, 39, Line(10, S34, 0xbebfbc70), b, c, d, a);
      b := HH(b, c, d, a, x[10], S34, 0xbebfbc70);
      HHStep(v, x, 40, Line(13, S31, 0x289b7ec6), a, b, c, d);
      a := HH(a, b, c, d, x[13], S31, 0x289b7ec6);
      HHStep(v, x, 41, Line(0, S32, 0xeaa127fa), d, a, b, c);
      d := HH(d, a, b, c, x[0], S32, 0xeaa127fa);
      HHStep(v, x, 42, Line(3, S33, 0xd4ef3085), c, d, a, b);
      c := HH(c, d, a, b, x[3], S33, 0xd4ef3085);
      HHStep(v, x, 43, Line(6, S34, 0x4881d05), b, c, d, a);
      b := HH(b, c, d, a, x[6], S34, 0x4881d05);
      HHStep(v, x, 44, Line(9, S31, 0xd9d4d039), a, b, c, d);
      a := HH(a, b, c, d, x[9], S31, 0xd9d4d039);
      HHStep(v, x, 45, Line(12, S32, 0xe6db99e5), d, a, b, c);
      d := HH(d, a, b, c, x[12], S32, 0xe6db99e5);
      HHStep(v, x, 46, Line(15, S33, 0x1fa27cf8), c, d, a, b);
      c := HH(c, d, a, b, x[15], S33, 0x1fa27cf8);
      HHStep(v, x, 47, Line(2, S34, 0xc4ac5665), b, c, d, a);
      b := HH(b, c, d, a, x[2], S34, 0xc4ac5665);
      w := Regs(a, b, c, d);
    }

    /** Steps 49 to 64, as transform writes them out. */
    method Round4(ghost v: Regs, x: seq<bv32>, u: Regs) returns (w: Regs)
      requires |x| == 16 && u == Steps(v, x, 48)
      ensures w == Steps(v, x, 64)
    {
      hide FF, GG, HH, II, Step, Steps, Entry;
      Entries4();
      var (a, b, c, d) := (u.a, u.b, u.c, u.d);
      IIStep(v, x, 48, Line(0, S41, 0xf4292244), a, b, c, d);
      a := II(a, b, c, d, x[0], S41, 0xf4292244);
      IIStep(v, x, 49, Line(7, S42, 0x432aff97), d, a, b, c);
      d := II(d, a, b, c, x[7], S42, 0x432aff97);
      IIStep(v, x, 50, Line(14, S43, 0xab9423a7), c, d, a, b);
      c := II(c, d, a, b, x[14], S43, 0xab9423a7);
      IIStep(v, x, 51, Line(5, S44, 0xfc93a039), b, c, d, a);
      b := II(b, c, d, a, x[5], S44, 0xfc93a039);
      IIStep(v, x, 52, Line(12, S41, 0x655b59c3), a, b, c, d);
      a := II(a, b, c, d, x[12], S41, 0x655b59c3);
      IIStep(v, x, 53, Line(3, S42, 0x8f0ccc92), d, a, b, c);
      d := II(d, a, b, c, x[3], S42, 0x8f0ccc92);
      IIStep(v, x, 54, Line(10, S43, 0xffeff47d), c, d, a, b);
      c := II(c, d, a, b, x[10], S43, 0xffeff47d);
      IIStep(v, x, 55, Line(1, S44, 0x85845dd1), b, c, d, a);
      b := II(b, c, d, a, x[1], S44, 0x85845dd1);
      IIStep(v, x, 56, Line(8, S41, 0x6fa87e4f), a, b, c, d);
      a := II(a, b, c, d, x[8], S41, 0x6fa87e4f);
      IIStep(v, x, 57, Line(15, S42, 0xfe2ce6e0), d, a, b, c);
      d := II(d, a, b, c, x[15], S42, 0xfe2ce6e0);
      IIStep(v, x, 58, Line(6, S43, 0xa3014314), c, d, a, b);
      c := II(c, d, a, b, x[6], S43, 0xa3014314);
      IIStep(v, x, 59, Line(13, S44, 0x4e0811a1), b, c, d, a);
      b := II(b, c, d, a, x[13], S44, 0x4e0811a1);
      IIStep(v, x, 60, Line(4, S41, 0xf7537e82), a, b, c, d);
      a := II(a, b, c, d, x[4], S41, 0xf7537e82);
      IIStep(v, x, 61, Line(11, S42, 0xbd3af235), d, a, b, c);
      d := II(d, a, b, c, x[11], S42, 0xbd3af235);
      IIStep(v, x, 62, Line(2, S43, 0x2ad7d2bb), c, d, a, b);
      c := II(c, d, a, b, x[2], S43, 0x2ad7d2bb);
      IIStep(v, x, 63, Line(9, S44, 0xeb86d391), b, c, d, a);
      b := II(b, c, d, a, x[9], S44, 0xeb86d391);
      w := Regs(a, b, c, d);
    }

    /** memcpy into the buffer. */
    method Store(at: nat, data: seq<bv8>)
      requires at + |data| <= buffer.Length
      modifies buffer
      ensures buffer[..] == old(buffer[..at]) + data + old(buffer[at + |data|..])
    {
      forall k | 0 <= k < |data| { buffer[at + k] := data[k]; }
    }

    method Update(input: seq<bv8>)
      requires Taking() && |input| < TWO_32 && NoWrap(BLOCK - |Tail(msg)|, |input|)
      modifies this`count0, this`count1, this`msg, buffer, state
      ensures Taking() && msg == old(msg) + input
    {
      hide Absorb, Absorbed, Compress, Tail, Whole, FromArray, Counts, NoWrap, Counted;
      IndexIsTail(count0, count1, msg);
      CarryIsExact(count0, count1, |msg|, |input|);
      var index := count0 / 8 % BLOCK;
      var (lo, hi) := Counted(count0, count1, |input|);
      count0, count1 := lo, hi;
      Take(input, index);
      msg := msg + input;
    }

    method Take(input: seq<bv8>, index: nat)
      requires Shape() && index == |Tail(msg)| < BLOCK && |input| < TWO_32 && NoWrap(BLOCK - index, |input|)
      requires buffer[..index] == Tail(msg) && FromArray(state[..]) == Absorbed(Compress, INIT, msg)
      modifies buffer, state
      ensures |Tail(msg + input)| <= BLOCK && buffer[..|Tail(msg + input)|] == Tail(msg + input)
      ensures FromArray(state[..]) == Absorbed(Compress, INIT, msg + input)
    {
      hide Absorb, Absorbed, Compress, Tail, Whole, FromArray, NoWrap;
      var firstpart := BLOCK - index;
      if |input| >= firstpart {
        Store(index, input[..firstpart]);
        TakeBlocks(input, firstpart);
      } else {
        GrowTail(Compress, INIT, msg, input);
        Store(index, input);
      }
    }

    /** The rest of update, with the first block complete in the buffer. */
    method TakeBlocks(input: seq<bv8>, firstpart: nat)
      requires Shape() && |Tail(msg)| + firstpart == BLOCK && 1 <= firstpart <= |input| < TWO_32
               && NoWrap(firstpart, |input|)
      requires buffer[..] == Tail(msg) + input[..firstpart] && FromArray(state[..]) == Absorbed(Compress, INIT, msg)
      modifies buffer, state
      ensures |Tail(msg + input)| <= BLOCK && buffer[..|Tail(msg + input)|] == Tail(msg + input)
      ensures FromArray(state[..]) == Absorbed(Compress, INIT, msg + input)
    {
      hide Absorb, Absorbed, Compress, Tail, Whole, FromArray, NoWrap, After;
      AbsorbFirst(FromArray(state[..]), buffer[..]);
      GrowBlocks(Compress, INIT, msg, input, firstpart);
      TailIsShort(msg + input);
      Transform(buffer[..]);
      ghost var h := FromArray(state[..]);
      var i := BlockLoop(input, firstpart);
      AllBlocks(h, input, firstpart, i);
      hide AtBlock;
      Store(0, input[i..]);
    }

    /** transform on every whole block left in the input. */
    method BlockLoop(input: seq<bv8>, firstpart: nat) returns (i: nat)
      requires Shape() && 1 <= firstpart <= |input| < TWO_32 && NoWrap(firstpart, |input|)
      modifies state
      ensures AtBlock(input, firstpart, i) && |input| - i < BLOCK
      ensures FromArray(state[..]) == After(FromArray(old(state[..])), input, firstpart, i)
    {
      i := firstpart;
      ghost var h := FromArray(state[..]);
      hide Absorb, Compress, FromArray, NoWrap, After, AtBlock, NextIndex;
      LoopStarts(h, input, firstpart);
      while NextIndex(i) <= |input|
        invariant AtBlock(input, firstpart, i) && FromArray(state[..]) == After(h, input, firstpart, i)
        decreases |input| - i
      {
        BlockTurn(input, firstpart, i, h);
        i := i + BLOCK;
      }
      LoopStops(h, input, firstpart, i);
    }

    method BlockTurn(input: seq<bv8>, firstpart: nat, i: nat, ghost h: Regs)
      requires Shape() && 1 <= firstpart <= |input| < TWO_32 && NoWrap(firstpart, |input|) && NextIndex(i) <= |input|
      requires AtBlock(input, firstpart, i) && FromArray(state[..]) == After(h, input, firstpart, i)
      modifies state
      ensures i + BLOCK <= |input| && AtBlock(input, firstpart, i + BLOCK)
      ensures FromArray(state[..]) == After(h, input, firstpart, i + BLOCK)
    {
      hide Absorb, Compress, FromArray, NoWrap, After, AtBlock, NextIndex;
      LoopGoesOn(h, input, firstpart, i);
      Transform(input[i..i + BLOCK]);
    }

    /** finalize: a second call changes nothing. */
    method Finalize()
      requires Valid()
      modifies this, buffer, state
      ensures Valid() && finalized && msg == old(msg) && digest == Digest(msg)
      ensures old(finalized) ==> digest == old(digest)
    {
      if !finalized {
        ghost var whole := msg;
        hide Taking, Digest;
        CloseMessage();
        forall k | 0 <= k < BLOCK { buffer[k] := 0; }
        count0, count1, finalized, msg := 0, 0, true, whole;
      }
    }

    method CloseMessage()
      requires Taking()
      modifies this`count0, this`count1, this`msg, this`digest, buffer, state
      ensures Shape() && digest == Digest(old(msg))
    {
      var bits := EncodeCount();
      IndexIsTail(count0, count1, msg);
      var index := count0 / 8 % BLOCK;
      var padLen := if index < 56 then 56 - index else 120 - index;
      assert padLen == PadLen(|msg|);
      hide Absorb, Absorbed, Compress, Tail, PadLen, NoWrap, PADDING, Digest, FromArray, Bytes, Counts, Unpack, Low,
        High, Padding;
      PaddingParts(msg, padLen, bits);
      UpdateBoth(PADDING[..padLen], bits);
      digest := Output();
    }

    method UpdateBoth(pad: seq<bv8>, bits: seq<bv8>)
      requires Taking() && |pad| <= BLOCK && |bits| == 8
      requires (forall fill: nat :: NoWrap(fill, |pad|)) && (forall fill: nat :: NoWrap(fill, |bits|))
      modifies this`count0, this`count1, this`msg, buffer, state
      ensures Taking() && msg == old(msg) + pad + bits
      ensures FromArray(state[..]) == Absorbed(Compress, INIT, msg)
    {
      TailIsShort(msg);
      TailIsShort(msg + pad);
      hide Absorb, Absorbed, Compress, Tail, Whole, FromArray, Counts, NoWrap;
      Update(pad);
      Update(bits);
    }

    /** encode() of the counter. */
    method EncodeCount() returns (bits: seq<bv8>)
      requires Counts(count0, count1, |msg|)
      ensures bits == Unpack(Low(|msg|)) + Unpack(High(|msg|))
    {
      bits := Unpack(count0 as bv32) + Unpack(count1 as bv32);
    }

    /** encode() of the state. */
    method Output() returns (out: seq<bv8>)
      requires state.Length == 4
      ensures out == Bytes(FromArray(state[..]))
    {
      out := Unpack(state[0]) + Unpack(state[1]) + Unpack(state[2]) + Unpack(state[3]);
    }
  }

  /** count[0] / 8 % 64 is the number of buffered bytes. */
  lemma IndexIsTail(lo: nat, hi: nat, msg: seq<bv8>)
    requires Counts(lo, hi, |msg|)
    ensures lo / 8 % BLOCK == |Tail(msg)| == |msg| % BLOCK
  {
    TailIsShort(msg);
    IndexOfCount(|msg|);
  }

  lemma IndexOfCount(n: nat)
    ensures 8 * n % TWO_32 / 8 % BLOCK == n % BLOCK
  {
    var q := 8 * n / TWO_32;
    assert 8 * n % TWO_32 == 8 * (n - q * 0x2000_0000);
  }

  lemma AbsorbFirst(h: Regs, first: Block)
    ensures Absorb(Compress, h, first) == Compress(h, first)
  {
    hide Compress;
    AbsorbLast(Compress, h, [], first);
    assert [] + first == first;
  }

  /** The loop variable of the block loop, and the state there. */
  ghost predicate AtBlock(input: seq<bv8>, fill: nat, i: nat) {
    fill <= i <= |input| && (i - fill) % BLOCK == 0
  }

  ghost function After(h: Regs, input: seq<bv8>, fill: nat, i: nat): Regs
    requires AtBlock(input, fill, i)
  {
    Absorb(Compress, h, input[fill..i])
  }

  lemma LoopStarts(h: Regs, input: seq<bv8>, fill: nat)
    requires fill <= |input|
    ensures AtBlock(input, fill, fill) && After(h, input, fill, fill) == h
  {
  }

  lemma JoinAt(input: seq<bv8>, x: nat, y: nat, z: nat)
    requires x <= y <= z <= |input|
    ensures input[x..y] + input[y..z] == input[x..z]
  {
  }

  lemma NextFits(length: nat, fill: nat, i: nat)
    requires fill <= length < TWO_32 && NoWrap(fill, length) && fill <= i <= length && (i - fill) % BLOCK == 0
    requires NextIndex(i) <= length
    ensures i + BLOCK <= length
  {
    WholeIs(length - fill);
    WholeIs(i - fill);
    assert i <= fill + Whole(length - fill);
  }

  lemma LoopGoesOn(h: Regs, input: seq<bv8>, fill: nat, i: nat)
    requires 1 <= fill <= |input| < TWO_32 && NoWrap(fill, |input|) && AtBlock(input, fill, i)
    requires NextIndex(i) <= |input|
    ensures AtBlock(input, fill, i + BLOCK) && i + BLOCK <= |input|
    ensures After(h, input, fill, i + BLOCK) == Compress(After(h, input, fill, i), input[i..i + BLOCK])
  {
    NextFits(|input|, fill, i);
    assert AtBlock(input, fill, i + BLOCK);
    hide Compress, NoWrap, Absorb, AtBlock;
    AbsorbLast(Compress, h, input[fill..i], input[i..i + BLOCK]);
    JoinAt(input, fill, i, i + BLOCK);
  }

  lemma LoopStops(h: Regs, input: seq<bv8>, fill: nat, i: nat)
    requires 1 <= fill <= |input| < TWO_32 && NoWrap(fill, |input|) && AtBlock(input, fill, i)
    requires NextIndex(i) > |input|
    ensures |input| - i < BLOCK && AtBlock(input, fill, i)
  {
    WholeIs(|input| - fill);
    assert i + BLOCK < TWO_32;
  }

  lemma AllBlocks(h: Regs, input: seq<bv8>, fill: nat, i: nat)
    requires AtBlock(input, fill, i) && |input| - i < BLOCK
    ensures Whole(|input| - fill) == i - fill
    ensures After(h, input, fill, i) == Absorb(Compress, h, input[fill..][..i - fill])
    ensures input[i..] == input[fill..][i - fill..]
  {
    WholeIs(|input| - fill);
    assert input[fill..][..i - fill] == input[fill..i];
  }

  const PADDING: seq<bv8> := [0x80] + Zeros(BLOCK - 1)

  lemma PaddingPrefix(padLen: nat)
    requires 1 <= padLen <= BLOCK
    ensures PADDING[..padLen] == [0x80] + Zeros(padLen - 1)
  {
  }

  /** The two updates of finalize append the padding of the standard and end on a block. */
  lemma PaddingParts(msg: seq<bv8>, padLen: nat, bits: seq<bv8>)
    requires padLen == PadLen(|msg|) && bits == Unpack(Low(|msg|)) + Unpack(High(|msg|))
    ensures var pad := PADDING[..padLen];
            && (forall fill: nat :: NoWrap(fill, |pad|)) && (forall fill: nat :: NoWrap(fill, |bits|))
            && msg + pad + bits == msg + Padding(|msg|)
            && Bytes(Absorbed(Compress, INIT, msg + pad + bits)) == Digest(msg)
  {
    var pad := PADDING[..padLen];
    PaddingPrefix(padLen);
    forall fill: nat ensures NoWrap(fill, |pad|) && NoWrap(fill, |bits|) {
      ShortNeverWraps(fill, |pad|);
      ShortNeverWraps(fill, |bits|);
    }
    assert Padding(|msg|) == pad + bits;
    WholeIs(|msg + Padding(|msg|)|);
    hide Absorb, Compress, Unpack, NoWrap, Zeros, Low, High, Padding, PADDING, Bytes;
    Associate(msg, pad, bits);
    var all := msg + Padding(|msg|);
    assert all[..|all|] == all;
  }
}
