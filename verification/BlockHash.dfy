/** What SHA-256 and MD5 share: a compression function folded over 64-byte blocks, and the split of a
growing message into whole blocks and a tail. */
module BlockHash {
  import opened Basics

  const BLOCK: nat := 64

  type Block = b: seq<bv8> | |b| == BLOCK witness seq(BLOCK, i => 0)

  /** The fold over the whole blocks of `data`, the last block outermost. */
  function Absorb<H>(compress: (H, Block) -> H, h: H, data: seq<bv8>): H {
    if |data| < BLOCK then h
    else
      var n := |data| - BLOCK;
      compress(Absorb(compress, h, data[..n]), data[n..])
  }

  function Whole(n: nat): nat { n - n % BLOCK }

  /** The bytes that do not fill a block yet. */
  function Tail(msg: seq<bv8>): (t: seq<bv8>) { msg[Whole(|msg|)..] }

  function Absorbed<H>(compress: (H, Block) -> H, h: H, msg: seq<bv8>): H {
    Absorb(compress, h, msg[..Whole(|msg|)])
  }

  lemma CutAt(b: seq<bv8>, n: nat)
    requires n <= |b|
    ensures b[..n] + b[n..] == b
  {
  }

  lemma AbsorbLast<H>(compress: (H, Block) -> H, h: H, data: seq<bv8>, block: Block)
    ensures Absorb(compress, h, data + block) == compress(Absorb(compress, h, data), block)
  {
    assert (data + block)[..|data|] == data && (data + block)[|data|..] == block;
  }

  /** Absorbing two runs of whole blocks one after the other is absorbing their concatenation. */
  lemma {:induction false} AbsorbAppend<H>(compress: (H, Block) -> H, h: H, a: seq<bv8>, b: seq<bv8>)
    requires |a| % BLOCK == 0 && |b| % BLOCK == 0
    ensures Absorb(compress, h, a + b) == Absorb(compress, Absorb(compress, h, a), b)
    decreases |b|
  {
    if |b| == 0 {
      assert a + b == a;
    } else {
      var (front, last) := (b[..|b| - BLOCK], b[|b| - BLOCK..]);
      hide Absorb;
      AbsorbAppend(compress, h, a, front);
      AbsorbLast(compress, h, a + front, last);
      AbsorbLast(compress, Absorb(compress, h, a), front, last);
      Associate(a, front, last);
      CutAt(b, |b| - BLOCK);
    }
  }

  lemma WholeSum(w: nat, n: nat)
    requires w % BLOCK == 0
    ensures Whole(w + n) == w + Whole(n) && Whole(n) % BLOCK == 0
    ensures (w + n) % BLOCK == n % BLOCK
  {
  }

  /** The blocks and the tail of a grown message. */
  lemma GrowSplit(msg: seq<bv8>, more: seq<bv8>)
    ensures var (w, joined) := (Whole(|msg|), Tail(msg) + more);
            && (msg + more)[..Whole(|msg + more|)] == msg[..w] + joined[..Whole(|joined|)]
            && Tail(msg + more) == joined[Whole(|joined|)..]
            && w % BLOCK == 0 && Whole(|joined|) % BLOCK == 0 && |Tail(msg)| < BLOCK
            && |msg + more| == w + |joined|
  {
    var (w, joined) := (Whole(|msg|), Tail(msg) + more);
    WholeSum(0, |msg|);
    WholeSum(w, |joined|);
    assert |msg + more| == w + |joined|;
    assert msg + more == msg[..w] + joined;
  }

  /** A message grows by `more`: the buffered tail and the new bytes together give the blocks that can
      be absorbed now and the new tail. */
  lemma Grow<H>(compress: (H, Block) -> H, h: H, msg: seq<bv8>, more: seq<bv8>)
    ensures var joined := Tail(msg) + more;
            && Absorbed(compress, h, msg + more) ==
              Absorb(compress, Absorbed(compress, h, msg), joined[..Whole(|joined|)])
            && Tail(msg + more) == joined[Whole(|joined|)..]
            && |Tail(msg)| < BLOCK
  {
    var joined := Tail(msg) + more;
    GrowSplit(msg, more);
    assert |msg[..Whole(|msg|)]| == Whole(|msg|);
    hide Absorb, Whole, Tail;
    AbsorbAppend(compress, h, msg[..Whole(|msg|)], joined[..Whole(|joined|)]);
  }

  lemma WholeIs(n: nat)
    ensures Whole(n) == n / BLOCK * BLOCK && n == n / BLOCK * BLOCK + n % BLOCK && n % BLOCK < BLOCK
  {
  }

  lemma TailIsShort(msg: seq<bv8>)
    ensures |Tail(msg)| == |msg| % BLOCK < BLOCK
  {
  }

  /** New bytes that fill no block only lengthen the tail. */
  lemma GrowTail<H>(compress: (H, Block) -> H, h: H, msg: seq<bv8>, more: seq<bv8>)
    requires |Tail(msg)| + |more| < BLOCK
    ensures Absorbed(compress, h, msg + more) == Absorbed(compress, h, msg)
    ensures Tail(msg + more) == Tail(msg) + more && Whole(|msg + more|) == Whole(|msg|)
  {
    var joined := Tail(msg) + more;
    assert Whole(|joined|) == 0 && |joined[..0]| == 0;
    assert forall x: H :: Absorb(compress, x, joined[..0]) == x;
    assert |Tail(msg)| == |msg| - Whole(|msg|);
    WholeSum(0, |msg|);
    WholeSum(Whole(|msg|), |joined|);
    hide *;
    Grow(compress, h, msg, more);
    assert joined[0..] == joined;
    assert |msg + more| == Whole(|msg|) + |joined|;
  }

  lemma SliceJoined(tail: seq<bv8>, more: seq<bv8>, fill: nat, n: nat)
    requires fill + n <= |more|
    ensures var (first, left) := (tail + more[..fill], more[fill..]);
            && (tail + more)[..|tail| + fill + n] == first + left[..n]
            && (tail + more)[|tail| + fill + n..] == left[n..]
  {
  }

  lemma WholeOfJoined(msg: seq<bv8>, more: seq<bv8>, fill: nat)
    requires |Tail(msg)| + fill == BLOCK && fill <= |more|
    ensures Whole(|Tail(msg) + more|) == BLOCK + Whole(|more| - fill)
    ensures Whole(|msg + more|) == Whole(|msg|) + BLOCK + Whole(|more| - fill)
    ensures Whole(|more| - fill) <= |more| - fill && Whole(|more| - fill) % BLOCK == 0
  {
    WholeSum(0, |msg|);
    WholeSum(Whole(|msg|), BLOCK + (|more| - fill));
    WholeSum(BLOCK, |more| - fill);
  }

  /** New bytes that complete the tail: the block so filled comes first, then the whole blocks of what
      is left, and the rest is the new tail. */
  lemma GrowBlocks<H>(compress: (H, Block) -> H, h: H, msg: seq<bv8>, more: seq<bv8>, fill: nat)
    requires |Tail(msg)| + fill == BLOCK && fill <= |more|
    ensures var (first, left, n) := (Tail(msg) + more[..fill], more[fill..], Whole(|more| - fill));
            && n <= |left|
            && Absorbed(compress, h, msg + more) ==
              Absorb(compress, Absorb(compress, Absorbed(compress, h, msg), first), left[..n])
            && Tail(msg + more) == left[n..]
            && Whole(|msg + more|) == Whole(|msg|) + BLOCK + n
  {
    var n := Whole(|more| - fill);
    hide *;
    WholeOfJoined(msg, more, fill);
    Grow(compress, h, msg, more);
    SliceJoined(Tail(msg), more, fill, n);
    AbsorbAppend(compress, Absorbed(compress, h, msg), Tail(msg) + more[..fill], more[fill..][..n]);
  }

  lemma WholeBlocks(msg: seq<bv8>, pad: seq<bv8>)
    requires (|msg| + |pad|) % BLOCK == 0
    ensures Whole(|msg + pad|) == |msg + pad| && Whole(|Tail(msg) + pad|) == |Tail(msg) + pad|
    ensures |Tail(msg) + pad| % BLOCK == 0
  {
    WholeSum(0, |msg|);
    WholeSum(Whole(|msg|), |Tail(msg)| + |pad|);
  }

  /** A message padded to whole blocks: the blocks completed by the tail are absorbed last. */
  lemma Complete<H>(compress: (H, Block) -> H, h: H, msg: seq<bv8>, pad: seq<bv8>)
    requires (|msg| + |pad|) % BLOCK == 0
    ensures Absorb(compress, h, msg + pad) == Absorb(compress, Absorbed(compress, h, msg), Tail(msg) + pad)
    ensures |Tail(msg) + pad| % BLOCK == 0
  {
    WholeBlocks(msg, pad);
    assert (msg + pad)[..|msg + pad|] == msg + pad && (Tail(msg) + pad)[..|Tail(msg) + pad|] == Tail(msg) + pad;
    hide Absorb, Whole, Tail;
    Grow(compress, h, msg, pad);
  }
}
