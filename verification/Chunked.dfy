/** Chunked transfer coding (section 4.1 of RFC 7230): the writer of chunked bodies and the reader of
chunked responses, whose state between reads is two counters. */
module Chunked {
  import opened Basics

  type Octets = string

  const CRLF: Octets := "\r\n"

  // ----- hexadecimal sizes -----

  predicate IsHex(c: char) { '0' <= c <= '9' || 'A' <= c <= 'F' || 'a' <= c <= 'f' }

  function HexValue(c: char): (v: nat)
    requires IsHex(c)
    ensures v < 16
  {
    if c <= '9' then c as nat - '0' as nat else if c <= 'F' then c as nat - 'A' as nat + 10
      else c as nat - 'a' as nat + 10
  }

  function HexDigit(d: nat): (c: char)
    requires d < 16
    ensures IsHex(c) && HexValue(c) == d
  {
    "0123456789ABCDEF"[d]
  }

  /** std::hex with std::uppercase. */
  function Hex(n: nat): (h: Octets)
    ensures h != [] && forall i :: 0 <= i < |h| ==> IsHex(h[i])
  {
    if n < 16 then [HexDigit(n)] else Hex(n / 16) + [HexDigit(n % 16)]
  }

  /** strtol in base 16, on digits. */
  function Parse(h: Octets): nat
    requires forall i :: 0 <= i < |h| ==> IsHex(h[i])
  {
    if h == [] then 0 else 16 * Parse(h[..|h| - 1]) + HexValue(h[|h| - 1])
  }

  lemma {:induction false} HexRoundTrip(n: nat)
    ensures Parse(Hex(n)) == n
  {
    if n >= 16 {
      HexRoundTrip(n / 16);
      assert Hex(n)[..|Hex(n)| - 1] == Hex(n / 16);
    } else {
      assert Hex(n)[..0] == [];
    }
  }

  // ----- the reader -----

  /** m_nNextChunk and m_nChunkFooter. */
  datatype State = State(next: nat, footer: nat)

  datatype Event = Data(octets: Octets) | End

  /** `Stuck`: the goto repeats in the same state for ever. */
  datatype Result = Ok(st: State, events: seq<Event>) | Stuck

  predicate Valid(st: State) { st.next > 0 ==> st.footer == 2 }

  function HexRun(buf: Octets): (k: nat)
    ensures k <= |buf| && (forall i :: 0 <= i < k ==> IsHex(buf[i])) && (k < |buf| ==> !IsHex(buf[k]))
  {
    if buf == [] || !IsHex(buf[0]) then 0 else 1 + HexRun(buf[1..])
  }

  /** ^([0-9a-fA-F]+)[\r]?\n : the number, and the length of the match. */
  function SizeLine(buf: Octets): (m: Option<(nat, nat)>)
    ensures m.Some? ==> 0 < m.value.1 <= |buf|
  {
    var k := HexRun(buf);
    var j := if k < |buf| && buf[k] == '\r' then k + 1 else k;
    if k > 0 && j < |buf| && buf[j] == '\n' then Some((Parse(buf[..k]), j + 1)) else None
  }

  predicate StartsCrlf(buf: Octets) { |buf| >= 2 && buf[..2] == CRLF }

  function Prepend(before: seq<Event>, r: Result): Result { if r.Ok? then Ok(r.st, before + r.events) else Stuck }

  function Blob(data: Octets): seq<Event> { if data == [] then [] else [Data(data)] }

  /** From `nextchunck` on: a size line is due when both counters are 0.  Without one the rest of the
      read passes as data and the body is declared complete. */
  function AtHeader(st: State, buf: Octets): Result
    requires Valid(st) && buf != []
    decreases |buf|, 2
  {
    if st == State(0, 0) then
      var m := SizeLine(buf);
      if m.None? then Ok(st, Blob(buf) + [End])
      else AtData(State(m.value.0, 2), buf[m.value.1..], m.value.0 == 0)
    else AtData(st, buf, false)
  }

  function AtData(st: State, buf: Octets, last: bool): Result
    requires Valid(st) && st != State(0, 0)
    decreases |buf|, 1
  {
    var k := Least(|buf|, st.next);
    Prepend(Blob(buf[..k]), AtFooter(State(st.next - k, st.footer), buf[k..], last))
  }

  function AtFooter(st: State, buf: Octets, last: bool): Result
    requires st.footer > 0
    decreases |buf|, 0
  {
    var (buf', footer) := if StartsCrlf(buf) then (buf[2..], 0) else (buf, st.footer);
    if last then Ok(State(st.next, footer), [End])
    else if buf' == [] then Ok(State(st.next, footer), [])
    else if footer == 0 then AtHeader(State(0, 0), buf')
    else Stuck
  }

  // ----- the wire as tokens: a read is never cut inside one -----

  datatype Token = Size(n: nat) | Octet(c: char) | Crlf

  function TextOf(t: Token): Octets {
    match t
    case Size(n) => Hex(n) + CRLF
    case Octet(c) => [c]
    case Crlf => CRLF
  }

  function Text(ts: seq<Token>): Octets { if ts == [] then [] else TextOf(ts[0]) + Text(ts[1..]) }

  /** Where the wire stands: what is still to come. */
  datatype Phase =
    | AtSize(chunks: seq<Octets>)                // a size line is next, of the last chunk if none is left
    | InData(rest: Octets, chunks: seq<Octets>)  // inside a chunk
    | Closing                                    // the CRLF after the last size line
    | Finished

  predicate Proper(ph: Phase) { ph.AtSize? || ph.InData? ==> forall i :: 0 <= i < |ph.chunks| ==> ph.chunks[i] != [] }

  function Head(ph: Phase): Token
    requires !ph.Finished?
  {
    match ph
    case AtSize(cs) => Size(if cs == [] then 0 else |cs[0]|)
    case InData(d, _) => if d == [] then Crlf else Octet(d[0])
    case Closing => Crlf
  }

  function Next(ph: Phase): Phase {
    match ph
    case AtSize(cs) => if cs == [] then Closing else InData(cs[0], cs[1..])
    case InData(d, cs) => if d == [] then AtSize(cs) else InData(d[1..], cs)
    case Closing => Finished
    case Finished => Finished
  }

  function Weight(ph: Phase): nat {
    match ph
    case AtSize(cs) => 2 + Length(cs)
    case InData(d, cs) => 3 + |d| + Length(cs)
    case Closing => 1
    case Finished => 0
  }

  function Length(cs: seq<Octets>): nat { if cs == [] then 0 else |cs[0]| + 2 + Length(cs[1..]) }

  /** Everything still to come. */
  function Pending(ph: Phase): seq<Token>
    decreases Weight(ph)
  {
    if ph.Finished? then [] else [Head(ph)] + Pending(Next(ph))
  }

  /** `ts` are tokens that may come next. */
  predicate Follows(ph: Phase, ts: seq<Token>)
    decreases |ts|
  {
    ts == [] || (!ph.Finished? && ts[0] == Head(ph) && Follows(Next(ph), ts[1..]))
  }

  function After(ph: Phase, ts: seq<Token>): Phase
    decreases |ts|
  {
    if ts == [] then ph else After(Next(ph), ts[1..])
  }

  function StateOf(ph: Phase): State {
    match ph
    case AtSize(_) => State(0, 0)
    case InData(d, _) => State(|d|, 2)
    case Closing => State(0, 2)
    case Finished => State(0, 0)
  }

  /** The octets of the body among the tokens, and whether the last size line is. */
  function BodyOf(ts: seq<Token>): Octets {
    if ts == [] then [] else (if ts[0].Octet? then [ts[0].c] else []) + BodyOf(ts[1..])
  }

  function Ends(ts: seq<Token>): nat { if ts == [] then 0 else (if ts[0] == Size(0) then 1 else 0) + Ends(ts[1..]) }

  function Body(evs: seq<Event>): Octets {
    if evs == [] then [] else (if evs[0].Data? then evs[0].octets else []) + Body(evs[1..])
  }

  function Marks(evs: seq<Event>): nat { if evs == [] then 0 else (if evs[0].End? then 1 else 0) + Marks(evs[1..]) }

  /** The end marker, where there is one, comes last. */
  predicate EndLast(evs: seq<Event>) { forall i :: 0 <= i < |evs| - 1 ==> evs[i].Data? }

  /** The reader followed the tokens: it stands where they end, delivered their octets and nothing else,
      and marked the end when the last size line was among them. */
  predicate Followed(r: Result, ph: Phase, ts: seq<Token>) {
    && r.Ok? && r.st == StateOf(After(ph, ts))
    && Body(r.events) == BodyOf(ts) && Marks(r.events) == Ends(ts)
    && EndLast(r.events) && (BodyOf(ts) == [] && Ends(ts) == 0 ==> r.events == [])
  }

  lemma {:induction false} RunEnds(h: Octets, rest: Octets)
    requires (forall i :: 0 <= i < |h| ==> IsHex(h[i])) && rest != [] && !IsHex(rest[0])
    ensures HexRun(h + rest) == |h|
    decreases |h|
  {
    if h == [] {
      assert h + rest == rest;
    } else {
      assert (h + rest)[1..] == h[1..] + rest && (h + rest)[0] == h[0];
      RunEnds(h[1..], rest);
    }
  }

  lemma Parts(h: Octets, rest: Octets)
    ensures var buf := h + CRLF + rest;
            buf[..|h|] == h && buf[|h|] == '\r' && buf[|h| + 1] == '\n' && buf[|h| + 2..] == rest
  {
  }

  /** A written size line is matched as a whole, with its number. */
  lemma SizeLineIsRead(n: nat, rest: Octets)
    ensures SizeLine(Hex(n) + CRLF + rest) == Some((n, |Hex(n)| + 2))
    ensures (Hex(n) + CRLF + rest)[|Hex(n)| + 2..] == rest
  {
    var (h, buf) := (Hex(n), Hex(n) + CRLF + rest);
    HexRoundTrip(n);
    hide Hex, HexRun, Parse;
    Associate(h, CRLF, rest);
    RunEnds(h, CRLF + rest);
    Parts(h, rest);
  }

  /** What `a` octets at the front of a read leave. */
  predicate SplitAt(d: Octets, cs: seq<Octets>, ts: seq<Token>, a: nat)
    requires a <= |d| && a <= |ts|
  {
    && Text(ts) == d[..a] + Text(ts[a..]) && Follows(InData(d[a..], cs), ts[a..])
    && After(InData(d, cs), ts) == After(InData(d[a..], cs), ts[a..])
    && BodyOf(ts) == d[..a] + BodyOf(ts[a..]) && Ends(ts) == Ends(ts[a..])
  }

  /** The octets of a chunk that are in this read. */
  lemma {:induction false} SplitOctets(d: Octets, cs: seq<Octets>, ts: seq<Token>)
    requires Follows(InData(d, cs), ts)
    ensures SplitAt(d, cs, ts, Least(|ts|, |d|))
    decreases |d|
  {
    var a := Least(|ts|, |d|);
    if a == 0 {
      assert ts[0..] == ts && d[0..] == d && d[..0] == [];
    } else {
      OctetFollows(d, cs, ts);
      assert Least(|ts| - 1, |d| - 1) == a - 1;
      hide *;
      SplitOctets(d[1..], cs, ts[1..]);
      SplitOneMore(d, cs, ts, a);
    }
  }

  lemma SplitOneMore(d: Octets, cs: seq<Octets>, ts: seq<Token>, a: nat)
    requires 1 <= a <= |d| && a <= |ts| && ts[0] == Octet(d[0])
    requires After(InData(d, cs), ts) == After(InData(d[1..], cs), ts[1..]) && SplitAt(d[1..], cs, ts[1..], a - 1)
    ensures SplitAt(d, cs, ts, a)
  {
    hide Text, Follows, After, BodyOf, Ends;
    FirstOctet(d[0], ts);
    Slices(d, ts, a);
  }

  lemma OctetFollows(d: Octets, cs: seq<Octets>, ts: seq<Token>)
    requires Follows(InData(d, cs), ts) && d != [] && ts != []
    ensures Follows(InData(d[1..], cs), ts[1..]) && ts[0] == Octet(d[0])
    ensures After(InData(d, cs), ts) == After(InData(d[1..], cs), ts[1..])
  {
  }

  lemma FirstOctet(c: char, ts: seq<Token>)
    requires ts != [] && ts[0] == Octet(c)
    ensures Text(ts) == [c] + Text(ts[1..]) && BodyOf(ts) == [c] + BodyOf(ts[1..]) && Ends(ts) == Ends(ts[1..])
  {
  }

  lemma Slices(d: Octets, ts: seq<Token>, a: nat)
    requires 1 <= a <= |d| && a <= |ts|
    ensures ts[1..][a - 1..] == ts[a..] && d[1..][a - 1..] == d[a..]
    ensures forall rest: Octets :: [d[0]] + (d[1..][..a - 1] + rest) == d[..a] + rest
  {
    assert [d[0]] + d[1..][..a - 1] == d[..a];
    forall rest: Octets ensures [d[0]] + (d[1..][..a - 1] + rest) == d[..a] + rest {
      assert [d[0]] + (d[1..][..a - 1] + rest) == ([d[0]] + d[1..][..a - 1]) + rest;
    }
  }

  lemma NonEmptyText(ts: seq<Token>)
    ensures Text(ts) == [] <==> ts == []
  {
  }

  lemma BlobOf(data: Octets, r: Result)
    requires r.Ok?
    ensures var p := Prepend(Blob(data), r);
            && p.Ok? && p.st == r.st && Body(p.events) == data + Body(r.events) && Marks(p.events) == Marks(r.events)
            && (EndLast(r.events) ==> EndLast(p.events)) && (data == [] ==> p.events == r.events)
  {
    if data == [] {
      assert [] + r.events == r.events;
    } else {
      assert ([Data(data)] + r.events)[1..] == r.events;
    }
  }

  lemma {:induction false} FollowHeader(ph: Phase, ts: seq<Token>)
    requires Proper(ph) && Follows(ph, ts) && ts != []
    ensures Text(ts) != [] && Followed(AtHeader(StateOf(ph), Text(ts)), ph, ts)
    decreases |ts|, 3
  {
    NonEmptyText(ts);
    match ph
    case AtSize(cs) =>
      SizeLineIsRead(ts[0].n, Text(ts[1..]));
      if cs == [] {
        FollowLast(ts);
      } else {
        FollowData(cs[0], cs[1..], ts[1..]);
        hide AtData, SizeLine, Hex, Follows;
        assert Text(ts) == Hex(ts[0].n) + CRLF + Text(ts[1..]);
      }
    case InData(d, cs) => FollowData(d, cs, ts);
    case Closing => FollowClosing(ts);
  }

  lemma FollowLast(ts: seq<Token>)
    requires ts != [] && Follows(AtSize([]), ts)
    ensures Text(ts) != [] && Followed(AtHeader(State(0, 0), Text(ts)), AtSize([]), ts)
  {
    var (more, text) := (ts[1..], Text(ts[1..]));
    assert Follows(Closing, more) && ts[0] == Size(0) && Text(ts) == Hex(0) + CRLF + text;
    assert After(AtSize([]), ts) == After(Closing, more) && BodyOf(ts) == BodyOf(more) && Ends(ts) == 1 + Ends(more);
    assert Body([End]) == [] && Marks([End]) == 1;
    SizeLineIsRead(0, text);
    NonEmptyText(ts);
    hide Hex, SizeLine, AtData, Follows, After, Text, BodyOf, Ends, StateOf;
    LastFooter(more);
  }

  /** What may follow the last size line in its read, and what the reader makes of it. */
  lemma LastFooter(more: seq<Token>)
    requires Follows(Closing, more)
    ensures AtData(State(0, 2), Text(more), true) == Ok(StateOf(After(Closing, more)), [End])
    ensures BodyOf(more) == [] && Ends(more) == 0
  {
    var text := Text(more);
    if more != [] {
      assert Follows(Finished, more[1..]) && more == [Crlf] + more[1..];
      assert more == [Crlf];
      assert Text([Crlf]) == TextOf(Crlf) + Text([]) && CRLF + [] == CRLF;
    }
    assert StateOf(After(Closing, more)) == State(0, if more == [] then 2 else 0);
    assert text[0..] == text && text[..0] == [];
    assert AtFooter(State(0, 2), text, true) == Ok(StateOf(After(Closing, more)), [End]);
    hide AtFooter, Follows, Text, After;
    assert [] + [End] == [End];
  }

  lemma FollowClosing(ts: seq<Token>)
    requires ts != [] && Follows(Closing, ts)
    ensures Text(ts) != [] && Followed(AtHeader(State(0, 2), Text(ts)), Closing, ts)
  {
    assert ts == [Crlf] && Text([Crlf]) == CRLF + [] == CRLF;
  }

  lemma {:induction false} FollowData(d: Octets, cs: seq<Octets>, ts: seq<Token>)
    requires Proper(InData(d, cs)) && Follows(InData(d, cs), ts)
    ensures Followed(AtData(State(|d|, 2), Text(ts), false), InData(d, cs), ts)
    decreases |ts|, 2
  {
    var a := Least(|ts|, |d|);
    var (more, text) := (ts[a..], Text(ts));
    SplitOctets(d, cs, ts);
    NonEmptyText(more);
    assert |Text(more)| > 0 ==> a == |d|;
    assert text[..a] == d[..a] && text[a..] == Text(more);
    assert Least(|text|, |d|) == a;
    FollowFooter(d[a..], cs, more);
    hide AtFooter, Follows, Text;
    BlobOf(d[..a], AtFooter(State(|d| - a, 2), Text(more), false));
  }

  lemma {:induction false} FollowFooter(d: Octets, cs: seq<Octets>, ts: seq<Token>)
    requires Proper(InData(d, cs)) && Follows(InData(d, cs), ts) && (d == [] || ts == [])
    ensures Followed(AtFooter(State(|d|, 2), Text(ts), false), InData(d, cs), ts)
    decreases |ts|, 1
  {
    if ts != [] {
      var more := ts[1..];
      var text := Text(ts);
      assert text == CRLF + Text(more) && text[..2] == CRLF && text[2..] == Text(more);
      NonEmptyText(more);
      if more != [] { FollowHeader(AtSize(cs), more); }
    }
  }

  // ----- the writer -----

  function ChunkText(chunk: Octets): Octets { Hex(|chunk|) + CRLF + chunk + CRLF }

  /** The chunks of all calls, then what fnAfterCgi adds. */
  function Wire(chunks: seq<Octets>): Octets {
    if chunks == [] then "0\r\n\r\n" else ChunkText(chunks[0]) + Wire(chunks[1..])
  }

  function Flat(chunks: seq<Octets>): Octets { if chunks == [] then [] else chunks[0] + Flat(chunks[1..]) }

  lemma FirstToken(h: Token, more: seq<Token>)
    ensures Text([h] + more) == TextOf(h) + Text(more)
    ensures BodyOf([h] + more) == (if h.Octet? then [h.c] else []) + BodyOf(more)
    ensures Ends([h] + more) == (if h == Size(0) then 1 else 0) + Ends(more)
  {
    assert ([h] + more)[1..] == more;
  }

  lemma Front(d: Octets, rest: Octets)
    requires d != []
    ensures [d[0]] + (d[1..] + rest) == d + rest
  {
  }

  lemma {:induction false} OctetsPending(d: Octets, cs: seq<Octets>)
    ensures Text(Pending(InData(d, cs))) == d + CRLF + Text(Pending(AtSize(cs)))
    ensures BodyOf(Pending(InData(d, cs))) == d + BodyOf(Pending(AtSize(cs)))
    ensures Ends(Pending(InData(d, cs))) == Ends(Pending(AtSize(cs)))
    decreases |d|
  {
    var (h, more) := (Head(InData(d, cs)), Pending(Next(InData(d, cs))));
    var tail := Text(Pending(AtSize(cs)));
    assert Pending(InData(d, cs)) == [h] + more;
    FirstToken(h, more);
    if d != [] {
      hide Pending, Text, BodyOf, Ends;
      OctetsPending(d[1..], cs);
      Front(d, CRLF + tail);
      Front(d, BodyOf(Pending(AtSize(cs))));
      Associate(d, CRLF, tail);
      Associate(d[1..], CRLF, tail);
    } else {
      hide Pending, Text, BodyOf, Ends;
      assert d + CRLF == CRLF;
    }
  }

  lemma NothingPending()
    ensures Text(Pending(Closing)) == CRLF && BodyOf(Pending(Closing)) == [] && Ends(Pending(Closing)) == 0
    ensures Hex(0) + CRLF + CRLF == "0\r\n\r\n"
  {
    assert Pending(Closing) == [Crlf] + Pending(Finished) == [Crlf];
    assert Text([Crlf]) == TextOf(Crlf) + Text([]) && CRLF + [] == CRLF;
    assert Hex(0) == "0";
  }

  /** The tokens of a body are its bytes on the wire, carry its octets, and name the end once. */
  lemma {:induction false} PendingIsWire(cs: seq<Octets>)
    requires Proper(AtSize(cs))
    ensures Text(Pending(AtSize(cs))) == Wire(cs)
    ensures BodyOf(Pending(AtSize(cs))) == Flat(cs) && Ends(Pending(AtSize(cs))) == 1
    decreases |cs|
  {
    var (h, more) := (Head(AtSize(cs)), Pending(Next(AtSize(cs))));
    assert Pending(AtSize(cs)) == [h] + more;
    FirstToken(h, more);
    if cs == [] {
      NothingPending();
    } else {
      hide Pending, Hex, Text, BodyOf, Ends;
      OctetsPending(cs[0], cs[1..]);
      PendingIsWire(cs[1..]);
      var (line, c, rest) := (Hex(|cs[0]|) + CRLF, cs[0], Wire(cs[1..]));
      Associate(line, c + CRLF, rest);
      Associate(line, c, CRLF);
    }
  }

  // ----- the round trip -----

  function ReadAll(st: State, inputs: seq<Octets>): Result
    decreases |inputs|
  {
    if inputs == [] then Ok(st, [])
    else if !Valid(st) || inputs[0] == [] then Stuck
    else
      var r := AtHeader(st, inputs[0]);
      if r.Ok? then Prepend(r.events, ReadAll(r.st, inputs[1..])) else Stuck
  }

  function Texts(cuts: seq<seq<Token>>): seq<Octets> { seq(|cuts|, i requires 0 <= i < |cuts| => Text(cuts[i])) }

  function Joined(cuts: seq<seq<Token>>): seq<Token> { if cuts == [] then [] else cuts[0] + Joined(cuts[1..]) }

  lemma {:induction false} FollowsParts(ph: Phase, a: seq<Token>, b: seq<Token>)
    requires Follows(ph, a + b) && Proper(ph)
    ensures Follows(ph, a) && Follows(After(ph, a), b) && After(ph, a + b) == After(After(ph, a), b)
            && Proper(After(ph, a))
    decreases |a|
  {
    if a == [] {
      assert a + b == b;
    } else {
      assert (a + b)[1..] == a[1..] + b && (a + b)[0] == a[0];
      FollowsParts(Next(ph), a[1..], b);
    }
  }

  lemma {:induction false} TokensAppend(a: seq<Token>, b: seq<Token>)
    ensures BodyOf(a + b) == BodyOf(a) + BodyOf(b) && Ends(a + b) == Ends(a) + Ends(b)
    decreases |a|
  {
    if a == [] {
      assert a + b == b;
    } else {
      var first := if a[0].Octet? then [a[0].c] else [];
      assert a + b == [a[0]] + (a[1..] + b) && a == [a[0]] + a[1..];
      FirstToken(a[0], a[1..] + b);
      FirstToken(a[0], a[1..]);
      hide BodyOf, Ends, Text;
      TokensAppend(a[1..], b);
      Associate(first, BodyOf(a[1..]), BodyOf(b));
    }
  }

  lemma EventsAppend(a: seq<Event>, b: seq<Event>)
    ensures Body(a + b) == Body(a) + Body(b) && Marks(a + b) == Marks(a) + Marks(b)
    decreases |a|
  {
    if a == [] {
      assert a + b == b;
    } else {
      var first := if a[0].Data? then a[0].octets else [];
      assert (a + b)[1..] == a[1..] + b && (a + b)[0] == a[0];
      assert Body(a + b) == first + Body(a[1..] + b) && Body(a) == first + Body(a[1..]);
      assert Marks(a + b) == Marks([a[0]]) + Marks(a[1..] + b) && Marks(a) == Marks([a[0]]) + Marks(a[1..]);
      hide Body, Marks;
      EventsAppend(a[1..], b);
      assert first + (Body(a[1..]) + Body(b)) == first + Body(a[1..]) + Body(b);
    }
  }

  lemma {:induction false} ReadsFollow(ph: Phase, cuts: seq<seq<Token>>)
    requires Proper(ph) && Follows(ph, Joined(cuts)) && forall i :: 0 <= i < |cuts| ==> cuts[i] != []
    ensures var r := ReadAll(StateOf(ph), Texts(cuts));
            && r.Ok? && r.st == StateOf(After(ph, Joined(cuts)))
            && Body(r.events) == BodyOf(Joined(cuts)) && Marks(r.events) == Ends(Joined(cuts))
    decreases |cuts|
  {
    if cuts != [] {
      var (first, rest) := (cuts[0], Joined(cuts[1..]));
      assert Joined(cuts) == first + rest && Valid(StateOf(ph));
      FirstRead(StateOf(ph), cuts);
      hide ReadAll, Joined, Texts, Follows, After, Proper, StateOf, Body, Marks, Text, BodyOf, Ends;
      FollowsParts(ph, first, rest);
      TokensAppend(first, rest);
      FollowHeader(ph, first);
      ReadsFollow(After(ph, first), cuts[1..]);
      EventsAppend(AtHeader(StateOf(ph), Text(first)).events,
        ReadAll(StateOf(After(ph, first)), Texts(cuts[1..])).events);
    }
  }

  lemma FirstRead(st: State, cuts: seq<seq<Token>>)
    requires cuts != [] && Valid(st) && cuts[0] != []
    ensures Text(cuts[0]) != []
    ensures var r := AtHeader(st, Text(cuts[0]));
            r.Ok? ==> ReadAll(st, Texts(cuts)) == Prepend(r.events, ReadAll(r.st, Texts(cuts[1..])))
  {
    NonEmptyText(cuts[0]);
    hide AtHeader, Text;
    assert Texts(cuts)[1..] == Texts(cuts[1..]) && Texts(cuts)[0] == Text(cuts[0]);
  }

  lemma {:induction false} AllFollow(ph: Phase)
    ensures Follows(ph, Pending(ph)) && After(ph, Pending(ph)) == Finished
    decreases Weight(ph)
  {
    if !ph.Finished? {
      AllFollow(Next(ph));
      assert Pending(ph)[1..] == Pending(Next(ph));
    }
  }

  /** Whatever the chunks and however the reads cut the wire, as long as no cut falls inside a size line
      or between CR and LF: the reader terminates with its counters back at zero, having delivered
      exactly the body and one end marker. */
  lemma ChunkedRoundTrip(chunks: seq<Octets>, cuts: seq<seq<Token>>)
    requires forall i :: 0 <= i < |chunks| ==> chunks[i] != []
    requires Joined(cuts) == Pending(AtSize(chunks)) && forall i :: 0 <= i < |cuts| ==> cuts[i] != []
    ensures Text(Joined(cuts)) == Wire(chunks)
    ensures var r := ReadAll(State(0, 0), Texts(cuts));
            r.Ok? && r.st == State(0, 0) && Body(r.events) == Flat(chunks) && Marks(r.events) == 1
  {
    PendingIsWire(chunks);
    AllFollow(AtSize(chunks));
    ReadsFollow(AtSize(chunks), cuts);
  }

  // ----- the code -----

  lemma PrependTwice(a: seq<Event>, b: seq<Event>, r: Result)
    ensures Prepend(a, Prepend(b, r)) == Prepend(a + b, r)
  {
    if r.Ok? { assert a + (b + r.events) == a + b + r.events; }
  }

  class Fetch {
    var nNextChunk: nat
    var nChunkFooter: nat
    var vecData: seq<Event>

    function Counters(): State
      reads this
    {
      State(nNextChunk, nChunkFooter)
    }

    /** A size line, if one is due.  Without a match the read passes as data and the body is complete. */
    method SizeLineStep(left: Octets, ghost all: Result) returns (matched: Option<nat>, bLastChunk: bool)
      requires Valid(Counters()) && left != [] && all == Prepend(vecData, AtHeader(Counters(), left))
      modifies this
      ensures matched.None? ==> all == Ok(Counters(), vecData) && !all.Stuck?
      ensures matched.Some? ==>
                && Valid(Counters()) && Counters() != State(0, 0) && matched.value <= |left|
                && (bLastChunk ==> nNextChunk == 0)
                && all == Prepend(vecData, AtData(Counters(), left[matched.value..], bLastChunk))
                && (matched.value == 0 ==> old(nChunkFooter) > 0)
    {
      hide SizeLine, AtData;
      bLastChunk := false;
      if nNextChunk == 0 && nChunkFooter == 0 {
        var m := SizeLine(left);
        if m.None? {
          vecData := vecData + (Blob(left) + [End]);
          return None, false;
        }
        nNextChunk := m.value.0;
        nChunkFooter := 2;
        bLastChunk := nNextChunk == 0;
        return Some(m.value.1), bLastChunk;
      }
      assert left[0..] == left;
      return Some(0), false;
    }

    /** The data of the current chunk in this read. */
    method DataStep(left: Octets, ghost bLastChunk: bool, ghost all: Result) returns (k: nat)
      requires Valid(Counters()) && Counters() != State(0, 0)
      requires all == Prepend(vecData, AtData(Counters(), left, bLastChunk))
      modifies this`nNextChunk, this`vecData
      ensures k <= |left| && nChunkFooter > 0 && nNextChunk == old(nNextChunk) - k && (k < |left| ==> nNextChunk == 0)
      ensures all == Prepend(vecData, AtFooter(Counters(), left[k..], bLastChunk))
    {
      hide AtFooter;
      k := Least(|left|, nNextChunk);
      PrependTwice(vecData, Blob(left[..k]), AtFooter(State(nNextChunk - k, nChunkFooter), left[k..], bLastChunk));
      hide Prepend;
      vecData := vecData + Blob(left[..k]);
      nNextChunk := nNextChunk - k;
    }

    /** The CRLF behind it, and where to go from there. */
    method FooterStep(left: Octets, bLastChunk: bool, ghost all: Result) returns (k: nat, again: bool, stuck: bool)
      requires nChunkFooter > 0 && all == Prepend(vecData, AtFooter(Counters(), left, bLastChunk))
      requires bLastChunk ==> nNextChunk == 0
      modifies this
      ensures k <= |left| && (!again ==> (stuck <==> all.Stuck?) && (!stuck ==> all == Ok(Counters(), vecData)))
      ensures again ==>
                && 0 < k < |left| && Counters() == State(0, 0)
                && all == Prepend(vecData, AtHeader(Counters(), left[k..]))
    {
      hide AtHeader;
      k, again, stuck := 0, false, false;
      if StartsCrlf(left) { k, nChunkFooter := 2, 0; }
      assert left[0..] == left;
      if k == |left| && !bLastChunk { return; }
      if !bLastChunk {
        if nChunkFooter != 0 { return k, false, true; }
        nNextChunk := 0;
        return k, true, false;
      }
      vecData := vecData + [End];
    }

    /** The chunked part of DatenEmpfangen on one read.  `stuck` stands for the endless goto. */
    method DatenEmpfangen(buf: Octets) returns (stuck: bool)
      requires Valid(Counters()) && buf != []
      modifies this
      ensures stuck <==> AtHeader(old(Counters()), buf).Stuck?
      ensures !stuck ==> Ok(Counters(), vecData) == Prepend(old(vecData), AtHeader(old(Counters()), buf))
    {
      var nWriteOffset: nat, again: bool := 0, true;
      ghost var first := AtHeader(Counters(), buf);
      ghost var all := Prepend(vecData, first);
      assert buf[0..] == buf && (all.Stuck? <==> first.Stuck?);
      stuck := false;
      hide AtHeader, Prepend;
      while again
        invariant nWriteOffset <= |buf| && (again ==> nWriteOffset < |buf| && Valid(Counters()))
        invariant again ==> all == Prepend(vecData, AtHeader(Counters(), buf[nWriteOffset..]))
        invariant !again ==> (stuck <==> all.Stuck?) && (!stuck ==> all == Ok(Counters(), vecData))
        decreases again, |buf| - nWriteOffset
      {
        nWriteOffset, again, stuck := Turn(buf, nWriteOffset, all);
      }
    }

    /** From one passing of `nextchunck` to the next. */
    method Turn(buf: Octets, from: nat, ghost all: Result) returns (to: nat, again: bool, stuck: bool)
      requires Valid(Counters()) && from < |buf| && all == Prepend(vecData, AtHeader(Counters(), buf[from..]))
      modifies this
      ensures from <= to <= |buf|
      ensures !again ==> (stuck <==> all.Stuck?) && (!stuck ==> all == Ok(Counters(), vecData))
      ensures again ==>
                && from < to < |buf| && Counters() == State(0, 0)
                && all == Prepend(vecData, AtHeader(Counters(), buf[to..]))
    {
      hide AtHeader, AtData, AtFooter, Prepend;
      var matched, bLastChunk := SizeLineStep(buf[from..], all);
      if matched.None? { return from, false, false; }
      to := from + matched.value;
      Behind(buf, from, matched.value);
      var k := DataStep(buf[to..], bLastChunk, all);
      Behind(buf, to, k);
      to := to + k;
      k, again, stuck := FooterStep(buf[to..], bLastChunk, all);
      Behind(buf, to, k);
      to := to + k;
    }
  }

  lemma Behind(buf: Octets, at: nat, k: nat)
    requires at + k <= |buf|
    ensures buf[at..][k..] == buf[at + k..]
  {
  }

  const BLOCK: nat := 0x4000

  function Free(blocked: seq<bool>): nat {
    if blocked == [] then 0 else (if blocked[0] then 0 else 1) + Free(blocked[1..])
  }

  /** What one call cuts its data into: full blocks, then what is left. */
  predicate CutsUp(chunks: seq<Octets>, data: Octets) {
    && Flat(chunks) <= data
    && (forall i :: 0 <= i < |chunks| ==> 1 <= |chunks[i]| <= BLOCK)
    && (forall i :: 0 <= i < |chunks| ==> |chunks[i]| == BLOCK || (i == |chunks| - 1 && Flat(chunks) == data))
  }

  /** fnSendOutput over HTTP/1.1 for one read of the program's output: every block the socket takes becomes
      a chunk.  `blocked` are the successive turns; running out of them is a stop. */
  method SendOutput(data: Octets, blocked: seq<bool>) returns (wire: Octets, chunks: seq<Octets>, done: bool)
    ensures wire == WireFront(chunks) && CutsUp(chunks, data)
    ensures done <==> Flat(chunks) == data
    ensures done <==> |data| <= BLOCK * Free(blocked)
  {
    wire, chunks := [], [];
    var nBytesTransferred: nat, turn: nat := 0, 0;
    assert blocked[0..] == blocked && blocked[|blocked|..] == [];
    assert CutsUp(chunks, data);
    assert WireFront([]) == [] && Flat([]) == [] && Free([]) == 0;
    hide CutsUp, WireFront, Flat, Free;
    while nBytesTransferred < |data| && turn < |blocked|
      invariant nBytesTransferred <= |data| && turn <= |blocked|
      invariant wire == WireFront(chunks) && Flat(chunks) == data[..nBytesTransferred] && CutsUp(chunks, data)
      invariant |data| <= BLOCK * Free(blocked) <==> |data| - nBytesTransferred <= BLOCK * Free(blocked[turn..])
      decreases |blocked| - turn
    {
      OneTurn(blocked, turn);
      turn := turn + 1;
      if blocked[turn - 1] { continue; }
      var n := Least(BLOCK, |data| - nBytesTransferred);
      var chunk := data[nBytesTransferred..nBytesTransferred + n];
      var text := SendChunk(chunk);
      OneMoreChunk(chunks, chunk);
      OneMoreBlock(chunks, data, nBytesTransferred, n);
      wire := wire + text;
      chunks := chunks + [chunk];
      nBytesTransferred := nBytesTransferred + n;
    }
    done := nBytesTransferred == |data|;
  }

  lemma OneTurn(blocked: seq<bool>, turn: nat)
    requires turn < |blocked|
    ensures Free(blocked[turn..]) == (if blocked[turn] then 0 else 1) + Free(blocked[turn + 1..])
  {
    assert blocked[turn..][1..] == blocked[turn + 1..];
  }

  lemma OneMoreBlock(chunks: seq<Octets>, data: Octets, at: nat, n: nat)
    requires at < |data| && n == Least(BLOCK, |data| - at) && Flat(chunks) == data[..at] && CutsUp(chunks, data)
    ensures var all := chunks + [data[at..at + n]];
            Flat(all) == data[..at + n] && CutsUp(all, data)
  {
    OneMoreChunk(chunks, data[at..at + n]);
    assert data[..at + n] == data[..at] + data[at..at + n];
  }

  /** A response body over HTTP/1.1: each read of the program's output is sent on its own, so that chunks
      end where the reads end; fnAfterCgi adds the terminator.  A stop returns without it. */
  method SendChunked(outputs: seq<Octets>, blocked: seq<seq<bool>>)
      returns (wire: Octets, parts: seq<seq<Octets>>, done: bool)
    requires |blocked| == |outputs|
    ensures |parts| <= |outputs| && forall i :: 0 <= i < |parts| ==> CutsUp(parts[i], outputs[i])
    ensures wire == if done then Wire(Flatten(parts)) else WireFront(Flatten(parts))
    ensures done ==> |parts| == |outputs| && forall i :: 0 <= i < |parts| ==> Flat(parts[i]) == outputs[i]
    ensures done ==> Flat(Flatten(parts)) == Flat(outputs)
    ensures forall i :: 0 <= i < |Flatten(parts)| ==> Flatten(parts)[i] != []
    ensures done <==> forall i :: 0 <= i < |outputs| ==> |outputs[i]| <= BLOCK * Free(blocked[i])
  {
    wire, parts, done := [], [], true;
    assert WireFront(Flatten(parts)) == [] && PartsOf(parts, outputs, blocked, true);
    hide *;
    while done && |parts| < |outputs|
      invariant |parts| <= |outputs| && PartsOf(parts, outputs, blocked, done) && wire == WireFront(Flatten(parts))
      decreases |outputs| - |parts|
    {
      var i := |parts|;
      assert i < |outputs| == |blocked|;
      var text, chunks;
      text, chunks, done := SendOutput(outputs[i], blocked[i]);
      NextPart(parts, chunks, outputs, blocked);
      OneMorePart(parts, chunks);
      FrontAppend(Flatten(parts), chunks);
      wire := wire + text;
      parts := parts + [chunks];
    }
    PartsChunks(parts, outputs, blocked, done);
    if done {
      wire := wire + "0\r\n\r\n";
      FrontThenEnd(Flatten(parts));
    }
  }

  /** The parts sent so far; `done` says that no call was stopped. */
  predicate PartsOf(parts: seq<seq<Octets>>, outputs: seq<Octets>, blocked: seq<seq<bool>>, done: bool)
    requires |blocked| == |outputs|
  {
    && |parts| <= |outputs| && (forall i :: 0 <= i < |parts| ==> CutsUp(parts[i], outputs[i]))
    && (done ==> forall i :: 0 <= i < |parts| ==>
      Flat(parts[i]) == outputs[i] && |outputs[i]| <= BLOCK * Free(blocked[i]))
    && (!done ==> parts != [] && |outputs[|parts| - 1]| > BLOCK * Free(blocked[|parts| - 1]))
  }

  lemma NextPart(parts: seq<seq<Octets>>, chunks: seq<Octets>, outputs: seq<Octets>, blocked: seq<seq<bool>>)
    requires |blocked| == |outputs| && PartsOf(parts, outputs, blocked, true) && |parts| < |outputs|
    requires CutsUp(chunks, outputs[|parts|])
    requires Flat(chunks) == outputs[|parts|] <==> |outputs[|parts|]| <= BLOCK * Free(blocked[|parts|])
    ensures PartsOf(parts + [chunks], outputs, blocked, Flat(chunks) == outputs[|parts|])
  {
    hide CutsUp, Flat, Free;
  }

  lemma PartsChunks(parts: seq<seq<Octets>>, outputs: seq<Octets>, blocked: seq<seq<bool>>, done: bool)
    requires |blocked| == |outputs| && PartsOf(parts, outputs, blocked, done) && (done ==> |parts| == |outputs|)
    ensures |parts| <= |outputs| && forall i :: 0 <= i < |parts| ==> CutsUp(parts[i], outputs[i])
    ensures done ==> forall i :: 0 <= i < |parts| ==> Flat(parts[i]) == outputs[i]
    ensures done ==> Flat(Flatten(parts)) == Flat(outputs)
    ensures forall i :: 0 <= i < |Flatten(parts)| ==> Flatten(parts)[i] != []
    ensures done <==> forall i :: 0 <= i < |outputs| ==> |outputs[i]| <= BLOCK * Free(blocked[i])
  {
    NoneEmpty(parts);
    hide Flatten;
    if done { PartsAreOutput(parts, outputs); }
  }

  /** Three writes: the size line, the data, the line end behind it. */
  method SendChunk(chunk: Octets) returns (text: Octets)
    ensures text == ChunkText(chunk)
  {
    hide Hex;
    text := Hex(|chunk|) + CRLF;
    text := text + chunk;
    text := text + CRLF;
  }

  function WireFront(chunks: seq<Octets>): Octets {
    if chunks == [] then [] else ChunkText(chunks[0]) + WireFront(chunks[1..])
  }

  lemma {:induction false} FrontThenEnd(chunks: seq<Octets>)
    ensures WireFront(chunks) + "0\r\n\r\n" == Wire(chunks)
    decreases |chunks|
  {
    if chunks != [] {
      FrontThenEnd(chunks[1..]);
      hide ChunkText;
      assert WireFront(chunks) + "0\r\n\r\n" == ChunkText(chunks[0]) + (WireFront(chunks[1..]) + "0\r\n\r\n");
    }
  }

  lemma {:induction false} OneMoreChunk(chunks: seq<Octets>, chunk: Octets)
    ensures WireFront(chunks + [chunk]) == WireFront(chunks) + ChunkText(chunk)
    ensures Flat(chunks + [chunk]) == Flat(chunks) + chunk
    decreases |chunks|
  {
    if chunks == [] {
      assert chunks + [chunk] == [chunk] && [chunk][1..] == [];
    } else {
      FirstChunk(chunks);
      FirstChunk(chunks + [chunk]);
      assert (chunks + [chunk])[1..] == chunks[1..] + [chunk];
      hide ChunkText, WireFront, Flat;
      OneMoreChunk(chunks[1..], chunk);
      Associate(ChunkText(chunks[0]), WireFront(chunks[1..]), ChunkText(chunk));
      Associate(chunks[0], Flat(chunks[1..]), chunk);
    }
  }

  function Flatten(parts: seq<seq<Octets>>): seq<Octets> { if parts == [] then [] else parts[0] + Flatten(parts[1..]) }

  lemma {:induction false} OneMorePart(parts: seq<seq<Octets>>, chunks: seq<Octets>)
    ensures Flatten(parts + [chunks]) == Flatten(parts) + chunks
    decreases |parts|
  {
    if parts == [] {
      assert parts + [chunks] == [chunks] && Flatten([]) == [];
    } else {
      OneMorePart(parts[1..], chunks);
      assert (parts + [chunks])[1..] == parts[1..] + [chunks];
    }
  }

  lemma {:induction false} FrontAppend(a: seq<Octets>, b: seq<Octets>)
    ensures WireFront(a + b) == WireFront(a) + WireFront(b) && Flat(a + b) == Flat(a) + Flat(b)
    decreases |a|
  {
    if a == [] {
      assert a + b == b;
    } else {
      FirstChunk(a);
      FirstChunk(a + b);
      assert (a + b)[1..] == a[1..] + b;
      hide ChunkText, WireFront, Flat;
      FrontAppend(a[1..], b);
      Associate(ChunkText(a[0]), WireFront(a[1..]), WireFront(b));
      Associate(a[0], Flat(a[1..]), Flat(b));
    }
  }

  lemma {:induction false} NoneEmpty(parts: seq<seq<Octets>>)
    requires forall i, k :: 0 <= i < |parts| && 0 <= k < |parts[i]| ==> parts[i][k] != []
    ensures forall i :: 0 <= i < |Flatten(parts)| ==> Flatten(parts)[i] != []
    decreases |parts|
  {
    if parts != [] { NoneEmpty(parts[1..]); }
  }

  /** The chunks sent carry the program's output. */
  lemma {:induction false} PartsAreOutput(parts: seq<seq<Octets>>, outputs: seq<Octets>)
    requires |parts| == |outputs| && forall i :: 0 <= i < |parts| ==> Flat(parts[i]) == outputs[i]
    ensures Flat(Flatten(parts)) == Flat(outputs)
    decreases |parts|
  {
    if parts != [] {
      PartsAreOutput(parts[1..], outputs[1..]);
      FrontAppend(parts[0], Flatten(parts[1..]));
    }
  }

  lemma FirstChunk(chunks: seq<Octets>)
    requires chunks != []
    ensures WireFront(chunks) == ChunkText(chunks[0]) + WireFront(chunks[1..])
            && Flat(chunks) == chunks[0] + Flat(chunks[1..])
  {
  }
}
