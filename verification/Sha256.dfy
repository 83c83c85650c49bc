/** SHA-256 as a streaming object, proved against FIPS 180-4. */
module Sha256 {
  import opened BlockHash

  const TWO_29: nat := 0x2000_0000
  const TWO_32: nat := 0x1_0000_0000
  const TWO_61: nat := 0x2000_0000_0000_0000
  const TWO_64: nat := 0x1_0000_0000_0000_0000

  // ----- FIPS 180-4 -----

  /** Section 4.2.2. */
  const K: seq<bv32> := [
    0x428a2f98, 0x71374491, 0xb5c0fbcf, 0xe9b5dba5, 0x3956c25b, 0x59f111f1, 0x923f82a4, 0xab1c5ed5,
    0xd807aa98, 0x12835b01, 0x243185be, 0x550c7dc3, 0x72be5d74, 0x80deb1fe, 0x9bdc06a7, 0xc19bf174,
    0xe49b69c1, 0xefbe4786, 0x0fc19dc6, 0x240ca1cc, 0x2de92c6f, 0x4a7484aa, 0x5cb0a9dc, 0x76f988da,
    0x983e5152, 0xa831c66d, 0xb00327c8, 0xbf597fc7, 0xc6e00bf3, 0xd5a79147, 0x06ca6351, 0x14292967,
    0x27b70a85, 0x2e1b2138, 0x4d2c6dfc, 0x53380d13, 0x650a7354, 0x766a0abb, 0x81c2c92e, 0x92722c85,
    0xa2bfe8a1, 0xa81a664b, 0xc24b8b70, 0xc76c51a3, 0xd192e819, 0xd6990624, 0xf40e3585, 0x106aa070,
    0x19a4c116, 0x1e376c08, 0x2748774c, 0x34b0bcb5, 0x391c0cb3, 0x4ed8aa4a, 0x5b9cca4f, 0x682e6ff3,
    0x748f82ee, 0x78a5636f, 0x84c87814, 0x8cc70208, 0x90befffa, 0xa4506ceb, 0xbef9a3f7, 0xc67178f2]

  datatype Regs = Regs(a: bv32, b: bv32, c: bv32, d: bv32, e: bv32, f: bv32, g: bv32, h: bv32)

  /** Section 5.3.3. */
  const H0 := Regs(0x6a09e667, 0xbb67ae85, 0x3c6ef372, 0xa54ff53a, 0x510e527f, 0x9b05688c, 0x1f83d9ab, 0x5be0cd19)

  /** Section 3.2. */
  function Rotr(x: bv32, n: bv6): bv32
    requires 0 < n < 32
  {
    (x >> n) | (x << (32 - n))
  }

  /** Section 4.1.2. */
  function Ch(x: bv32, y: bv32, z: bv32): bv32 { (x & y) ^ (!x & z) }
  function Maj(x: bv32, y: bv32, z: bv32): bv32 { (x & y) ^ (x & z) ^ (y & z) }
  function BigSigma0(x: bv32): bv32 { Rotr(x, 2) ^ Rotr(x, 13) ^ Rotr(x, 22) }
  function BigSigma1(x: bv32): bv32 { Rotr(x, 6) ^ Rotr(x, 11) ^ Rotr(x, 25) }
  function SmallSigma0(x: bv32): bv32 { Rotr(x, 7) ^ Rotr(x, 18) ^ (x >> 3) }
  function SmallSigma1(x: bv32): bv32 { Rotr(x, 17) ^ Rotr(x, 19) ^ (x >> 10) }

  /** A big-endian word, and back. */
  function Pack(b: seq<bv8>): bv32
    requires |b| == 4
  {
    ((b[0] as bv32) << 24) | ((b[1] as bv32) << 16) | ((b[2] as bv32) << 8) | (b[3] as bv32)
  }

  function Unpack(x: bv32): (b: seq<bv8>)
    ensures |b| == 4 && Pack(b) == x
  {
    [((x >> 24) & 0xff) as bv8, ((x >> 16) & 0xff) as bv8, ((x >> 8) & 0xff) as bv8, (x & 0xff) as bv8]
  }

  /** Addition is modulo 2^32. */
  function Plus(x: bv32, y: bv32): bv32 { x + y }

  function NextWord(w2: bv32, w7: bv32, w15: bv32, w16: bv32): bv32 { SmallSigma1(w2) + w7 + SmallSigma0(w15) + w16 }

  /** The message schedule, step 1 of section 6.2.2. */
  function W(block: Block, t: nat): bv32 {
    if 4 * t + 4 <= BLOCK then Pack(block[4 * t..4 * t + 4])
    else NextWord(W(block, t - 2), W(block, t - 7), W(block, t - 15), W(block, t - 16))
  }

  /** Step 3: one round, and the first t rounds. */
  function T1(e: bv32, f: bv32, g: bv32, h: bv32, k: bv32, w: bv32): bv32 { h + BigSigma1(e) + Ch(e, f, g) + k + w }
  function T2(a: bv32, b: bv32, c: bv32): bv32 { BigSigma0(a) + Maj(a, b, c) }

  function Round(v: Regs, k: bv32, w: bv32): Regs {
    var (t1, t2) := (T1(v.e, v.f, v.g, v.h, k, w), T2(v.a, v.b, v.c));
    Regs(Plus(t1, t2), v.a, v.b, v.c, Plus(v.d, t1), v.e, v.f, v.g)
  }

  function Rounds(v: Regs, block: Block, t: nat): Regs
    requires t <= 64
  {
    if t == 0 then v else Round(Rounds(v, block, t - 1), K[t - 1], W(block, t - 1))
  }

  function Added(x: Regs, y: Regs): Regs {
    Regs(Plus(x.a, y.a), Plus(x.b, y.b), Plus(x.c, y.c), Plus(x.d, y.d),
         Plus(x.e, y.e), Plus(x.f, y.f), Plus(x.g, y.g), Plus(x.h, y.h))
  }

  function Compress(h: Regs, block: Block): Regs { Added(h, Rounds(h, block, 64)) }

  /** How many zero bytes bring the message, the one bit and the length to whole blocks. */
  function Gap(n: nat): (z: nat)
    ensures z < BLOCK && (n + 1 + z + 8) % BLOCK == 0
  {
    (55 - n) % BLOCK
  }

  function Zeros(n: nat): seq<bv8> { seq(n, i => 0) }

  /** The two words of the bit count. */
  function High(n: nat): bv32
    requires n < TWO_61
  {
    (8 * n / TWO_32) as bv32
  }

  function Low(n: nat): bv32 { Low32(8 * n) }

  function Low32(n: nat): bv32 { (n % TWO_32) as bv32 }

  /** Section 5.1.1: a one bit, zeros up to 448 modulo 512 bits, the length in 64 bits. */
  function FipsPad(n: nat): (p: seq<bv8>)
    requires n < TWO_61
    ensures (n + |p|) % BLOCK == 0
  {
    [0x80] + Zeros(Gap(n)) + Unpack(High(n)) + Unpack(Low(n))
  }

  function Joined(h: seq<bv32>): seq<bv8> {
    if h == [] then [] else Joined(h[..|h| - 1]) + Unpack(h[|h| - 1])
  }

  function Bytes(h: Regs): seq<bv8> { Joined([h.a, h.b, h.c, h.d, h.e, h.f, h.g, h.h]) }

  function Digest(msg: seq<bv8>): seq<bv8>
    requires |msg| < TWO_61
  {
    Bytes(Absorb(Compress, H0, msg + FipsPad(|msg|)))
  }

  // ----- the padding the code writes -----

  /** final() writes only the low 32 bits of the bit count, into a buffer cleared before. */
  function CodePad(n: nat): (p: seq<bv8>)
    ensures (n + |p|) % BLOCK == 0
  {
    [0x80] + Zeros(Gap(n) + 4) + Unpack(Low(n))
  }

  /** It is the padding of the standard exactly for messages shorter than 2^29 bytes. */
  lemma PaddingIsStandardIff(n: nat)
    requires n < TWO_61
    ensures CodePad(n) == FipsPad(n) <==> n < TWO_29
  {
    var hi := High(n);
    var (z, at) := (Gap(n), Gap(n) + 1);
    assert Zeros(z + 4) == Zeros(z) + [0, 0, 0, 0];
    assert FipsPad(n)[at..at + 4] == Unpack(hi);
    assert CodePad(n)[at..at + 4] == [0, 0, 0, 0];
    assert Pack([0, 0, 0, 0]) == 0;
    if hi == 0 {
      assert Unpack(hi) == [0, 0, 0, 0];
      assert (hi as int) == 8 * n / TWO_32;
    }
  }

  // ----- the object -----

  function FromArray(h: seq<bv32>): Regs
    requires |h| == 8
  {
    Regs(h[0], h[1], h[2], h[3], h[4], h[5], h[6], h[7])
  }

  lemma WordOf(block: Block, t: nat)
    ensures t < 16 ==> W(block, t) == Pack(block[4 * t..4 * t + 4])
    ensures t >= 16 ==> W(block, t) == NextWord(W(block, t - 2), W(block, t - 7), W(block, t - 15), W(block, t - 16))
  {
  }

  lemma AddedArrays(x: seq<bv32>, y: seq<bv32>, sum: seq<bv32>)
    requires |x| == |y| == |sum| == 8 && forall i :: 0 <= i < 8 ==> sum[i] == Plus(x[i], y[i])
    ensures FromArray(sum) == Added(FromArray(x), FromArray(y))
  {
    hide Plus;
  }

  class SHA256 {
    const m_h: array<bv32>
    const m_block: array<bv8>
    var m_len: nat
    var m_tot_len: nat
    ghost var msg: seq<bv8>

    ghost predicate Shape()
      reads this
    {
      m_h.Length == 8 && m_block.Length == 2 * BLOCK && m_len < BLOCK
    }

    /** `m_h` has absorbed all whole blocks of the message, `m_block` starts with its tail. */
    ghost predicate Valid()
      reads this, m_h, m_block
    {
      && Shape()
      && m_tot_len == Whole(|msg|) % TWO_64
      && m_len == |Tail(msg)| && m_block[..m_len] == Tail(msg)
      && FromArray(m_h[..]) == Absorbed(Compress, H0, msg)
    }

    constructor ()
      ensures Valid() && msg == [] && fresh(m_h) && fresh(m_block)
    {
      m_h := new bv32[] [0x6a09e667, 0xbb67ae85, 0x3c6ef372, 0xa54ff53a, 0x510e527f, 0x9b05688c, 0x1f83d9ab,
        0x5be0cd19];
      m_block := new bv8[2 * BLOCK](i => 0);
      m_len, m_tot_len, msg := 0, 0, [];
    }

    /** memcpy into the block buffer. */
    method Store(at: nat, data: seq<bv8>)
      requires at + |data| <= m_block.Length
      modifies m_block
      ensures m_block[..] == old(m_block[..at]) + data + old(m_block[at + |data|..])
    {
      forall k | 0 <= k < |data| { m_block[at + k] := data[k]; }
    }

    method Update(message: seq<bv8>)
      requires Valid()
      modifies this, m_h, m_block
      ensures Valid() && msg == old(msg) + message
    {
      hide Absorb, Absorbed, Tail, Whole, Compress, FromArray;
      var tmp := BLOCK - m_len;
      var rem := if |message| < tmp then |message| else tmp;
      if m_len + |message| < BLOCK {
        GrowTail(Compress, H0, msg, message);
        Store(m_len, message[..rem]);
        m_len := m_len + |message|;
      } else {
        Store(m_len, message[..rem]);
        AbsorbBlocks(message, rem);
      }
      msg := msg + message;
    }

    /** The rest of update, with the block in the buffer complete. */
    method AbsorbBlocks(message: seq<bv8>, fill: nat)
      requires Shape() && fill <= |message| && |Tail(msg)| + fill == BLOCK
      requires m_tot_len == Whole(|msg|) % TWO_64 && FromArray(m_h[..]) == Absorbed(Compress, H0, msg)
      requires m_block[..BLOCK] == Tail(msg) + message[..fill]
      modifies this`m_len, this`m_tot_len, m_h, m_block
      ensures Shape() && m_tot_len == Whole(|msg + message|) % TWO_64
      ensures m_len == |Tail(msg + message)| && m_block[..m_len] == Tail(msg + message)
      ensures FromArray(m_h[..]) == Absorbed(Compress, H0, msg + message)
    {
      var newLen := |message| - fill;
      var blockNb, rem := newLen / BLOCK, newLen % BLOCK;
      hide Compress, Absorbed, Absorb, Tail, Whole, FromArray, AddTotal;
      AfterUpdate(msg, message, fill, blockNb, rem);
      TransformBoth(message[fill..], blockNb);
      MoveTail(message[|message| - rem..]);
      m_tot_len := AddTotal(m_tot_len, blockNb);
    }

    method TransformBoth(shifted: seq<bv8>, blockNb: nat)
      requires m_h.Length == 8 && m_block.Length == 2 * BLOCK && blockNb * BLOCK <= |shifted|
      modifies m_h
      ensures FromArray(m_h[..]) ==
              Absorb(Compress, Absorb(Compress, FromArray(old(m_h[..])), m_block[..BLOCK]), shifted[..blockNb * BLOCK])
    {
      hide Compress, Absorb, FromArray;
      ghost var first := m_block[..BLOCK];
      assert first[..1 * BLOCK] == first;
      Transform(m_block[..BLOCK], 1);
      Transform(shifted, blockNb);
    }

    method MoveTail(rest: seq<bv8>)
      requires Shape() && |rest| < BLOCK
      modifies this`m_len, m_block
      ensures Shape() && m_len == |rest| && m_block[..m_len] == rest
    {
      Store(0, rest);
      m_len := |rest|;
    }

    /** The digest is that of the message followed by `CodePad`. */
    method Final() returns (digest: seq<bv8>)
      requires Valid()
      modifies m_h, m_block
      ensures digest == Bytes(Absorb(Compress, H0, msg + CodePad(|msg|)))
      ensures |msg| < TWO_29 ==> digest == Digest(msg)
    {
      hide Compress, Absorbed, Absorb, Tail, CodePad, FipsPad, Bytes, FromArray;
      Complete(Compress, H0, msg, CodePad(|msg|));
      if |msg| < TWO_29 { PaddingIsStandardIff(|msg|); }
      var blockNb := Pad();
      assert m_block[..blockNb * BLOCK][..blockNb * BLOCK] == m_block[..blockNb * BLOCK];
      Transform(m_block[..blockNb * BLOCK], blockNb);
      digest := Output();
    }

    /** final up to the last transform: the padded tail fills one block or two. */
    method Pad() returns (blockNb: nat)
      requires Valid()
      modifies m_block
      ensures 1 <= blockNb <= 2 && m_block[..blockNb * BLOCK] == Tail(msg) + CodePad(|msg|)
    {
      blockNb := if BLOCK - 9 < m_len % BLOCK then 2 else 1;
      var bits := CountBits(m_tot_len, m_len);
      hide Compress, Absorbed, Absorb, Tail, Whole, CountBits, CodePad, FromArray;
      PaddedTail(msg, m_tot_len, blockNb);
      WritePad(blockNb * BLOCK, bits, Tail(msg), CodePad(|msg|));
    }

    /** memset, the one bit, the bit count. */
    method WritePad(pmLen: nat, bits: seq<bv8>, ghost tail: seq<bv8>, ghost pad: seq<bv8>)
      requires m_len + 5 <= pmLen <= m_block.Length && m_block[..m_len] == tail
      requires |pad| == pmLen - m_len && |bits| == 4
      requires pad[0] == 0x80 && pad[|pad| - 4..] == bits && forall k :: 1 <= k < |pad| - 4 ==> pad[k] == 0
      modifies m_block
      ensures m_block[..pmLen] == tail + pad
    {
      ClearFrom(m_len, pmLen);
      m_block[m_len] := 0x80;
      Store(pmLen - 4, bits);
      PadInPlace(m_block[..pmLen], tail, pad, bits);
    }

    method Output() returns (digest: seq<bv8>)
      requires m_h.Length == 8
      ensures digest == Bytes(FromArray(m_h[..]))
    {
      digest := [];
      hide Unpack;
      for i := 0 to 8
        invariant digest == Joined(m_h[..i])
      {
        JoinedOne(m_h[..], i);
        assert m_h[..][..i + 1] == m_h[..i + 1] && m_h[..][..i] == m_h[..i];
        digest := digest + Unpack(m_h[i]);
      }
      ghost var h := m_h[..];
      assert m_h[..8] == h == [h[0], h[1], h[2], h[3], h[4], h[5], h[6], h[7]];
    }

    /** memset */
    method ClearFrom(at: nat, end: nat)
      requires at <= end <= m_block.Length
      modifies m_block
      ensures m_block[..] == old(m_block[..at]) + Zeros(end - at) + old(m_block[end..])
    {
      forall k | at <= k < end { m_block[k] := 0; }
    }

    /** One 64-byte block into the schedule array. */
    method Schedule(block: Block) returns (w: array<bv32>)
      ensures fresh(w) && w.Length == 64 && forall j :: 0 <= j < 64 ==> w[j] == W(block, j)
    {
      hide Pack, NextWord, W;
      w := new bv32[64];
      for j := 0 to 16
        invariant forall i :: 0 <= i < j ==> w[i] == W(block, i)
      {
        WordOf(block, j);
        w[j] := Pack(block[4 * j..4 * j + 4]);
      }
      for j := 16 to 64
        invariant forall i :: 0 <= i < j ==> w[i] == W(block, i)
      {
        WordOf(block, j);
        w[j] := NextWord(w[j - 2], w[j - 7], w[j - 15], w[j - 16]);
      }
    }

    /** The 64 rounds on the working array, shifted in place. */
    method Work(block: Block, w: array<bv32>) returns (wv: array<bv32>)
      requires m_h.Length == 8 && w.Length == 64 && forall j :: 0 <= j < 64 ==> w[j] == W(block, j)
      ensures fresh(wv) && wv.Length == 8 && FromArray(wv[..]) == Rounds(FromArray(m_h[..]), block, 64)
    {
      hide Round, W;
      wv := new bv32[8];
      for j := 0 to 8
        invariant forall i :: 0 <= i < j ==> wv[i] == m_h[i]
      {
        wv[j] := m_h[j];
      }
      assert FromArray(wv[..]) == FromArray(m_h[..]);
      for j := 0 to 64
        invariant FromArray(wv[..]) == Rounds(FromArray(m_h[..]), block, j)
      {
        RoundInPlace(wv, K[j], w[j]);
      }
    }

    method RoundInPlace(wv: array<bv32>, k: bv32, w: bv32)
      requires wv.Length == 8
      modifies wv
      ensures FromArray(wv[..]) == Round(FromArray(old(wv[..])), k, w)
    {
      hide T1, T2, Plus;
      var t1 := T1(wv[4], wv[5], wv[6], wv[7], k, w);
      var t2 := T2(wv[0], wv[1], wv[2]);
      wv[7] := wv[6];
      wv[6] := wv[5];
      wv[5] := wv[4];
      wv[4] := Plus(wv[3], t1);
      wv[3] := wv[2];
      wv[2] := wv[1];
      wv[1] := wv[0];
      wv[0] := Plus(t1, t2);
    }

    method TransformOne(block: Block)
      requires m_h.Length == 8
      modifies m_h
      ensures FromArray(m_h[..]) == Compress(old(FromArray(m_h[..])), block)
    {
      var w := Schedule(block);
      var wv := Work(block, w);
      hide Rounds, Added, FromArray;
      AddInPlace(wv);
    }

    method AddInPlace(wv: array<bv32>)
      requires m_h.Length == 8 && wv.Length == 8 && wv != m_h
      modifies m_h
      ensures FromArray(m_h[..]) == Added(FromArray(old(m_h[..])), FromArray(wv[..]))
    {
      ghost var was := m_h[..];
      hide FromArray, Added, Plus;
      for j := 0 to 8
        invariant forall i :: 0 <= i < j ==> m_h[i] == Plus(was[i], wv[i])
        invariant forall i :: j <= i < 8 ==> m_h[i] == was[i]
      {
        m_h[j] := Plus(m_h[j], wv[j]);
      }
      AddedArrays(was, wv[..], m_h[..]);
    }

    method Transform(message: seq<bv8>, blockNb: nat)
      requires m_h.Length == 8 && blockNb * BLOCK <= |message|
      modifies m_h
      ensures FromArray(m_h[..]) == Absorb(Compress, old(FromArray(m_h[..])), message[..blockNb * BLOCK])
    {
      ghost var h := FromArray(m_h[..]);
      assert message[..0] == [] && After(h, message, 0) == h;
      hide Compress, After, FromArray;
      for i := 0 to blockNb
        invariant FromArray(m_h[..]) == After(h, message, i)
      {
        AfterOne(h, message, i);
        TransformOne(message[i * BLOCK..i * BLOCK + BLOCK]);
      }
      AfterAll(h, message, blockNb);
    }
  }

  /** len_b, of which the low word is stored. */
  function CountBits(total: nat, len: nat): (b: seq<bv8>)
    ensures |b| == 4
  {
    Unpack(Low32(((total + len) * 8) % TWO_64))
  }

  /** What final must leave in the block buffer behind the tail. */
  lemma PaddedTail(msg: seq<bv8>, total: nat, blockNb: nat)
    requires total == Whole(|msg|) % TWO_64 && blockNb == if BLOCK - 9 < |Tail(msg)| % BLOCK then 2 else 1
    ensures var (len, pad) := (|Tail(msg)|, CodePad(|msg|));
            && len < BLOCK && |pad| == blockNb * BLOCK - len >= 9
            && pad[0] == 0x80
            && (forall k :: 1 <= k < |pad| - 4 ==> pad[k] == 0)
            && pad[|pad| - 4..] == CountBits(total, len)
  {
    SameBits(|msg|, total, |Tail(msg)|);
    assert |Tail(msg)| == |msg| - Whole(|msg|);
    hide Low, Low32, Unpack, Tail, CodePad;
    PadShape(|msg|);
  }

  lemma PadShape(n: nat)
    ensures var (len, pad) := (n - Whole(n), CodePad(n));
            && len < BLOCK && |pad| == (if 55 < len then 2 else 1) * BLOCK - len
            && pad[0] == 0x80
            && (forall k :: 1 <= k < |pad| - 4 ==> pad[k] == 0)
            && pad[|pad| - 4..] == Unpack(Low(n))
  {
    hide Low, Unpack;
  }

  lemma PadInPlace(b: seq<bv8>, tail: seq<bv8>, pad: seq<bv8>, bits: seq<bv8>)
    requires |b| == |tail| + |pad| && |pad| >= 5 && |bits| == 4 && b[..|tail|] == tail
    requires b[|tail|] == pad[0] && pad[|pad| - 4..] == bits && b[|b| - 4..] == bits
    requires forall k :: 1 <= k < |pad| - 4 ==> pad[k] == b[|tail| + k]
    ensures b == tail + pad
  {
    forall k | 0 <= k < |pad| ensures pad[k] == b[|tail| + k] {
      if k >= |pad| - 4 {
        assert pad[|pad| - 4..][k - (|pad| - 4)] == b[|b| - 4..][k - (|pad| - 4)];
      }
    }
  }

  /** m_tot_len is a size_t. */
  function AddTotal(total: nat, blockNb: nat): nat { (total + (blockNb + 1) * BLOCK) % TWO_64 }

  lemma TotalWraps(w: nat, n: nat)
    ensures AddTotal(w % TWO_64, n) == (w + BLOCK + n * BLOCK) % TWO_64
  {
  }

  lemma AfterUpdate(msg: seq<bv8>, message: seq<bv8>, fill: nat, blockNb: nat, rem: nat)
    requires fill <= |message| && |Tail(msg)| + fill == BLOCK
    requires blockNb == (|message| - fill) / BLOCK && rem == (|message| - fill) % BLOCK
    ensures fill + blockNb * BLOCK + rem == |message|
    ensures Absorbed(Compress, H0, msg + message) ==
            Absorb(Compress, Absorb(Compress, Absorbed(Compress, H0, msg), Tail(msg) + message[..fill]),
              message[fill..][..blockNb * BLOCK])
    ensures Tail(msg + message) == message[|message| - rem..]
    ensures Whole(|msg + message|) % TWO_64 == AddTotal(Whole(|msg|) % TWO_64, blockNb)
  {
    hide *;
    WholeIs(|message| - fill);
    GrowBlocks(Compress, H0, msg, message, fill);
    TotalWraps(Whole(|msg|), blockNb);
  }

  lemma LowWord(x: nat, q: nat)
    requires x >= q * TWO_64
    ensures (x - q * TWO_64) % TWO_32 == x % TWO_32 == x % TWO_64 % TWO_32
  {
    DropHigh(x, q);
    DropHigh(x, x / TWO_64);
  }

  lemma DropHigh(x: nat, q: nat)
    requires x >= q * TWO_64
    ensures (x - q * TWO_64) % TWO_32 == x % TWO_32
  {
    var (d, m) := (x / TWO_32, x % TWO_32);
    assert x - q * TWO_64 == (d - q * TWO_32) * TWO_32 + m;
    RemainderIs(x - q * TWO_64, d - q * TWO_32, m);
  }

  lemma RemainderIs(a: int, d: int, m: nat)
    requires a == d * TWO_32 + m && m < TWO_32
    ensures a % TWO_32 == m
  {
  }

  /** The low word of the bit count survives the 64-bit wrap of the running total. */
  lemma SameBits(n: nat, total: nat, len: nat)
    requires total == Whole(n) % TWO_64 && len == n - Whole(n)
    ensures Low32(((total + len) * 8) % TWO_64) == Low(n)
  {
    var q := Whole(n) / TWO_64;
    assert (total + len) * 8 == 8 * n - 8 * q * TWO_64;
    hide Low32, Whole;
    LowWord(8 * n, 8 * q);
    LowWord((total + len) * 8, 0);
    LowIsMod(8 * n);
    LowIsMod(((total + len) * 8) % TWO_64);
  }

  lemma LowIsMod(n: nat)
    ensures Low32(n) == Low32(n % TWO_32)
  {
  }

  lemma JoinedOne(h: seq<bv32>, k: nat)
    requires k < |h|
    ensures Joined(h[..k + 1]) == Joined(h[..k]) + Unpack(h[k])
  {
    hide Unpack;
    assert h[..k + 1][..k] == h[..k];
  }

  /** After `i` blocks of `message`. */
  ghost function After(h: Regs, message: seq<bv8>, i: nat): Regs
    requires i * BLOCK <= |message|
  {
    Absorb(Compress, h, message[..i * BLOCK])
  }

  lemma AfterAll(h: Regs, message: seq<bv8>, i: nat)
    requires i * BLOCK <= |message|
    ensures After(h, message, i) == Absorb(Compress, h, message[..i * BLOCK])
  {
  }

  lemma AfterOne(h: Regs, message: seq<bv8>, i: nat)
    requires (i + 1) * BLOCK <= |message|
    ensures After(h, message, i + 1) == Compress(After(h, message, i), message[i * BLOCK..i * BLOCK + BLOCK])
  {
    hide Compress;
    var (n, m) := (i * BLOCK, (i + 1) * BLOCK);
    AbsorbLast(Compress, h, message[..n], message[n..m]);
    assert message[..m] == message[..n] + message[n..m];
  }

  /** sha256(): the whole input in one update. */
  method Sha256Of(input: seq<bv8>) returns (digest: seq<bv8>)
    ensures digest == Bytes(Absorb(Compress, H0, input + CodePad(|input|)))
    ensures |input| < TWO_29 ==> digest == Digest(input)
  {
    hide Compress, Absorb, Absorbed, CodePad, FipsPad, Bytes, Tail, Whole;
    var ctx := new SHA256();
    ctx.Update(input);
    assert [] + input == input;
    digest := ctx.Final();
  }
}
