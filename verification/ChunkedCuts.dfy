/** Where the reads of a chunked body may end: the reader is sound exactly when none ends inside a size
line or between CR and LF. */
module ChunkedCuts {
  import opened Basics
  import opened Chunked

  /** A proper piece of a token: the read ends inside it. */
  predicate Part(t: Token, part: Octets) { part != [] && part <= TextOf(t) && |part| < |TextOf(t)| }

  // ----- a read that ends inside a token -----

  /** A cut size line passes as data and ends the body. */
  lemma SizePart(n: nat, part: Octets)
    requires Part(Size(n), part)
    ensures AtHeader(State(0, 0), part) == Ok(State(0, 0), [Data(part), End])
  {
    var (h, k) := (Hex(n), |part|);
    assert part == (h + CRLF)[..k];
    if k <= |h| {
      assert part == h[..k];
      AllHex(part);
    } else {
      assert part == h + "\r";
      RunEnds(h, "\r");
    }
    assert SizeLine(part).None?;
    assert Blob(part) + [End] == [Data(part), End];
  }

  lemma {:induction false} AllHex(h: Octets)
    requires forall i :: 0 <= i < |h| ==> IsHex(h[i])
    ensures HexRun(h) == |h|
  {
    if h != [] { AllHex(h[1..]); }
  }

  lemma CrlfPart(part: Octets)
    requires Part(Crlf, part)
    ensures part == "\r" && !StartsCrlf(part)
  {
    assert part == CRLF[..1];
  }

  /** What becomes of a read whose last token, the head of `ph`, is cut. */
  ghost predicate Broken(r: Result, ph: Phase) {
    match ph
    case AtSize(_) => r.Ok? && Marks(r.events) > 0
    case InData(_, _) => r.Stuck?
    case Closing => r.Stuck? || r.st == State(0, 2)
    case Finished => false
  }

  lemma BrokenBehind(data: Octets, r: Result, ph: Phase)
    requires Broken(r, ph)
    ensures Broken(Prepend(Blob(data), r), ph)
  {
    if r.Ok? { BlobOf(data, r); }
  }

  lemma {:induction false} CutInside(ph: Phase, ts: seq<Token>, part: Octets)
    requires Proper(ph) && Follows(ph, ts) && !After(ph, ts).Finished? && Part(Head(After(ph, ts)), part)
    ensures Broken(AtHeader(StateOf(ph), Text(ts) + part), After(ph, ts))
    decreases |ts|, 3
  {
    match ph
    case AtSize(cs) =>
      if ts == [] {
        SizePart(if cs == [] then 0 else |cs[0]|, part);
        assert Text(ts) + part == part;
        assert Marks([Data(part), End]) == 1 by { assert [Data(part), End][1..] == [End] && [End][1..] == []; }
      } else {
        CutBehindSize(cs, ts, part);
      }
    case InData(d, cs) => CutData(d, cs, ts, part);
    case Closing => CutClosing(ts, part);
    case Finished =>
  }

  lemma {:induction false} CutBehindSize(cs: seq<Octets>, ts: seq<Token>, part: Octets)
    requires Proper(AtSize(cs)) && ts != [] && Follows(AtSize(cs), ts)
    requires !After(AtSize(cs), ts).Finished? && Part(Head(After(AtSize(cs), ts)), part)
    ensures Broken(AtHeader(State(0, 0), Text(ts) + part), After(AtSize(cs), ts))
    decreases |ts|, 2
  {
    var (n, more) := (ts[0].n, ts[1..]);
    var rest := Text(more) + part;
    assert Text(ts) == Hex(n) + CRLF + Text(more);
    Associate(Hex(n) + CRLF, Text(more), part);
    SizeLineIsRead(n, rest);
    if cs == [] { CutLast(more, part); } else { CutData(cs[0], cs[1..], more, part); }
    hide Hex, SizeLine, AtData, Text, Follows;
  }

  lemma ClosingFinishes(ts: seq<Token>)
    requires Follows(Closing, ts)
    ensures ts == [] || After(Closing, ts).Finished?
  {
    if ts != [] { assert Follows(Finished, ts[1..]) && After(Closing, ts) == After(Finished, ts[1..]); }
  }

  lemma InsideChunk(d: Octets, cs: seq<Octets>, ts: seq<Token>)
    requires Follows(InData(d, cs), ts) && |ts| < |d|
    ensures After(InData(d, cs), ts) == InData(d[|ts|..], cs)
  {
    SplitOctets(d, cs, ts);
    assert ts[|ts|..] == [];
  }

  lemma CutLast(ts: seq<Token>, part: Octets)
    requires Follows(Closing, ts) && !After(Closing, ts).Finished? && Part(Head(After(Closing, ts)), part)
    ensures ts == [] && Broken(AtData(State(0, 2), Text(ts) + part, true), Closing)
  {
    ClosingFinishes(ts);
    CrlfPart(part);
    assert Text([]) + part == part && part[0..] == part && part[..0] == [];
  }

  lemma CutClosing(ts: seq<Token>, part: Octets)
    requires Follows(Closing, ts) && !After(Closing, ts).Finished? && Part(Head(After(Closing, ts)), part)
    ensures ts == [] && AtHeader(State(0, 2), Text(ts) + part).Stuck?
  {
    ClosingFinishes(ts);
    CrlfPart(part);
    assert Text([]) + part == part && part[0..] == part && part[..0] == [];
    assert AtFooter(State(0, 2), part, false) == Stuck;
  }

  lemma {:induction false} CutData(d: Octets, cs: seq<Octets>, ts: seq<Token>, part: Octets)
    requires Proper(InData(d, cs)) && Follows(InData(d, cs), ts)
    requires !After(InData(d, cs), ts).Finished? && Part(Head(After(InData(d, cs), ts)), part)
    ensures Broken(AtData(State(|d|, 2), Text(ts) + part, false), After(InData(d, cs), ts))
    decreases |ts|, 1
  {
    var a := Least(|ts|, |d|);
    SplitOctets(d, cs, ts);
    var more := ts[a..];
    if |ts| < |d| { InsideChunk(d, cs, ts); }
    assert a == |d| && d[..a] == d && d[a..] == [];
    var rest := Text(more) + part;
    var buf := Text(ts) + part;
    Associate(d, Text(more), part);
    assert buf[..|d|] == d && buf[|d|..] == rest;
    CutFooter(cs, more, part);
    hide AtFooter, Follows, Text, Part;
    BrokenBehind(d, AtFooter(State(0, 2), rest, false), After(InData(d, cs), ts));
  }

  lemma {:induction false} CutFooter(cs: seq<Octets>, ts: seq<Token>, part: Octets)
    requires Proper(InData([], cs)) && Follows(InData([], cs), ts)
    requires !After(InData([], cs), ts).Finished? && Part(Head(After(InData([], cs), ts)), part)
    ensures Broken(AtFooter(State(0, 2), Text(ts) + part, false), After(InData([], cs), ts))
    decreases |ts|, 0
  {
    if ts == [] {
      CrlfPart(part);
      assert Text(ts) + part == part;
    } else {
      var more := ts[1..];
      var rest := Text(more) + part;
      assert Text(ts) == CRLF + Text(more);
      Associate(CRLF, Text(more), part);
      assert (CRLF + rest)[..2] == CRLF && (CRLF + rest)[2..] == rest && rest != [];
      CutInside(AtSize(cs), more, part);
    }
  }

  // ----- where a piece of the wire ends -----

  lemma PieceOf(piece: Octets, rest: Octets, x: Octets, t: Octets)
    requires piece + rest == x + t
    ensures |piece| >= |x| ==> piece == x + piece[|x|..] && piece[|x|..] + rest == t
    ensures |piece| < |x| ==> piece == x[..|piece|]
  {
    if |piece| >= |x| {
      assert (piece + rest)[|x|..] == piece[|x|..] + rest && (x + t)[|x|..] == t;
      assert (piece + rest)[..|x|] == piece[..|x|] && (x + t)[..|x|] == x;
    } else {
      assert (piece + rest)[..|piece|] == piece && (x + t)[..|piece|] == x[..|piece|];
    }
  }

  /** A piece of the wire is whole tokens and possibly a piece of the next one. */
  lemma {:induction false} Locate(ph: Phase, piece: Octets, rest: Octets) returns (ts: seq<Token>, part: Octets)
    requires piece + rest == Text(Pending(ph))
    ensures Follows(ph, ts) && piece == Text(ts) + part
    ensures part == [] || (!After(ph, ts).Finished? && Part(Head(After(ph, ts)), part))
    decreases Weight(ph)
  {
    ts, part := [], piece;
    if piece != [] {
      assert Text(Pending(Finished)) == [];
      var (h, more) := (Head(ph), Pending(Next(ph)));
      assert Pending(ph) == [h] + more;
      FirstToken(h, more);
      var x := TextOf(h);
      PieceOf(piece, rest, x, Text(more));
      if |piece| >= |x| {
        var left := piece[|x|..];
        var ts1;
        ts1, part := Locate(Next(ph), left, rest);
        ts := [h] + ts1;
        FirstToken(h, ts1);
        assert ts[1..] == ts1;
        Associate(x, Text(ts1), part);
      }
    }
  }

  lemma TextAtLeast(ts: seq<Token>)
    ensures ts != [] ==> |Text(ts)| >= |TextOf(ts[0])|
  {
  }

  /** The text of tokens, with a piece of the next one or not, determines them. */
  lemma {:induction false} TokensOf(ph: Phase, ts: seq<Token>, part: Octets, ts': seq<Token>)
    requires Follows(ph, ts) && Follows(ph, ts') && Text(ts') == Text(ts) + part
    requires part == [] || (!After(ph, ts).Finished? && Part(Head(After(ph, ts)), part))
    ensures part == [] && ts' == ts
    decreases |ts|
  {
    if ts == [] {
      assert Text(ts) + part == part;
      NonEmptyText(ts');
      TextAtLeast(ts');
    } else {
      NonEmptyText(ts);
      NonEmptyText(ts');
      var (x, t, t') := (TextOf(ts[0]), Text(ts[1..]), Text(ts'[1..]));
      assert ts' != [];
      Associate(x, t, part);
      assert (x + t')[|x|..] == t' && (x + (t + part))[|x|..] == t + part;
      TokensOf(Next(ph), ts[1..], part, ts'[1..]);
      assert ts == [ts[0]] + ts[1..] && ts' == [ts'[0]] + ts'[1..];
    }
  }

  lemma {:induction false} PendingSplit(ph: Phase, ts: seq<Token>)
    requires Follows(ph, ts)
    ensures Pending(ph) == ts + Pending(After(ph, ts)) && Text(Pending(ph)) == Text(ts) + Text(Pending(After(ph, ts)))
    decreases |ts|
  {
    if ts == [] {
      assert Text(ts) == [] && [] + Pending(ph) == Pending(ph) && [] + Text(Pending(ph)) == Text(Pending(ph));
    } else {
      var (h, more, ph') := (ts[0], ts[1..], After(ph, ts));
      assert Pending(ph) == [h] + Pending(Next(ph)) && After(Next(ph), more) == ph' && Follows(Next(ph), more);
      hide Pending, Text, After, Follows, TextOf;
      PendingSplit(Next(ph), more);
      FirstToken(h, Pending(Next(ph)));
      FirstToken(h, more);
      FirstOf(ts, Pending(ph'));
      Associate(TextOf(h), Text(more), Text(Pending(ph')));
    }
  }

  lemma FirstOf(ts: seq<Token>, more: seq<Token>)
    requires ts != []
    ensures [ts[0]] + ts[1..] == ts && [ts[0]] + (ts[1..] + more) == ts + more
  {
  }

  /** How much of the wire is left, at least. */
  lemma LeftOver(ph: Phase)
    ensures match ph
            case AtSize(_) => |Text(Pending(ph))| >= |TextOf(Head(ph))| + 2
            case InData(_, _) => |Text(Pending(ph))| >= 2
            case Closing => Text(Pending(ph)) == CRLF
            case Finished => Text(Pending(ph)) == []
    decreases Weight(ph)
  {
    if !ph.Finished? {
      assert Pending(ph) == [Head(ph)] + Pending(Next(ph));
      FirstToken(Head(ph), Pending(Next(ph)));
      LeftOver(Next(ph));
    }
  }

  // ----- the reads -----

  /** The reader terminates on every read, and declares the end only once the last size line is complete:
      at most the closing CRLF is still to come.  `left` counts the octets not yet read. */
  predicate Sound(st: State, inputs: seq<Octets>, left: int)
    decreases |inputs|
  {
    inputs == [] ||
      (&& Valid(st) && inputs[0] != [] && AtHeader(st, inputs[0]).Ok?
       && var r := AtHeader(st, inputs[0]);
          (Marks(r.events) > 0 ==> left <= |inputs[0]| + 2) && Sound(r.st, inputs[1..], left - |inputs[0]|))
  }

  /** `ts` are the tokens that fill a read. */
  predicate Fills(ph: Phase, ts: seq<Token>, input: Octets) { ts != [] && Follows(ph, ts) && Text(ts) == input }

  /** No read ends inside a size line or between CR and LF. */
  ghost predicate AtTokens(ph: Phase, inputs: seq<Octets>)
    decreases |inputs|
  {
    inputs == [] || exists ts :: Fills(ph, ts, inputs[0]) && AtTokens(After(ph, ts), inputs[1..])
  }

  /** The last size line leaves at most the CRLF behind it. */
  lemma {:induction false} EndsNearTheEnd(ph: Phase, ts: seq<Token>)
    requires Proper(ph) && Follows(ph, ts)
    ensures Proper(After(ph, ts))
    ensures Ends(ts) > 0 ==> |Text(Pending(After(ph, ts)))| <= 2
    decreases |ts|
  {
    if ts != [] {
      if ts[0] == Size(0) {
        ClosingFinishes(ts[1..]);
        LeftOver(After(ph, ts));
      }
      EndsNearTheEnd(Next(ph), ts[1..]);
    }
  }

  lemma OneFilling(ph: Phase, ts: seq<Token>, inputs: seq<Octets>)
    requires inputs != [] && Fills(ph, ts, inputs[0])
    ensures AtTokens(ph, inputs) <==> AtTokens(After(ph, ts), inputs[1..])
  {
    forall ts' | Fills(ph, ts', inputs[0]) ensures ts' == ts {
      hide Text, Follows;
      assert Text(ts) + [] == Text(ts);
      TokensOf(ph, ts, [], ts');
    }
  }

  lemma NoFilling(ph: Phase, ts: seq<Token>, part: Octets, inputs: seq<Octets>)
    requires inputs != [] && inputs[0] == Text(ts) + part && Follows(ph, ts)
    requires !After(ph, ts).Finished? && Part(Head(After(ph, ts)), part)
    ensures !AtTokens(ph, inputs)
  {
    forall ts' ensures !Fills(ph, ts', inputs[0]) {
      if Fills(ph, ts', inputs[0]) {
        hide Text, Follows, After;
        TokensOf(ph, ts, part, ts');
      }
    }
  }

  /** A read that ends inside a token spoils what is still to come. */
  lemma CutIsUnsound(ph: Phase, ts: seq<Token>, part: Octets, inputs: seq<Octets>)
    requires Proper(ph) && Follows(ph, ts) && !After(ph, ts).Finished? && Part(Head(After(ph, ts)), part)
    requires inputs != [] && inputs[0] == Text(ts) + part && Flat(inputs) == Text(Pending(ph))
    ensures !Sound(StateOf(ph), inputs, |Flat(inputs)|)
  {
    var (ph', rest) := (After(ph, ts), Flat(inputs[1..]));
    assert Flat(inputs) == inputs[0] + rest;
    PendingSplit(ph, ts);
    Associate(Text(ts), part, rest);
    assert Text(Pending(ph')) == part + rest by {
      assert (Text(ts) + (part + rest))[|Text(ts)|..] == part + rest;
      assert (Text(ts) + Text(Pending(ph')))[|Text(ts)|..] == Text(Pending(ph'));
    }
    CutInside(ph, ts, part);
    LeftOver(ph');
    hide Text, Pending, Follows, After, AtHeader, StateOf;
    if ph'.Closing? {
      assert part == CRLF[..1];
      assert (part + rest)[1..] == rest;
      LoneLf(State(0, 2), inputs[1..], |Flat(inputs)| - |inputs[0]|);
    }
  }

  /** The LF of a cut line end. */
  lemma LoneLf(st: State, inputs: seq<Octets>, left: int)
    requires st == State(0, 2) && Flat(inputs) == "\n"
    ensures !Sound(st, inputs, left)
  {
    if inputs[0] != [] {
      assert Flat(inputs) == inputs[0] + Flat(inputs[1..]);
      var buf := inputs[0];
      assert buf == "\n";
      assert buf[0..] == buf && AtFooter(st, buf, false).Stuck?;
      assert AtData(st, buf, false).Stuck?;
      assert AtHeader(st, buf).Stuck?;
    }
  }

  lemma {:induction false} SoundIff(ph: Phase, inputs: seq<Octets>)
    requires Proper(ph) && Flat(inputs) == Text(Pending(ph)) && forall i :: 0 <= i < |inputs| ==> inputs[i] != []
    ensures Sound(StateOf(ph), inputs, |Flat(inputs)|) <==> AtTokens(ph, inputs)
    decreases |inputs|
  {
    if inputs != [] {
      var rest := Flat(inputs[1..]);
      assert Flat(inputs) == inputs[0] + rest;
      var ts, part := Locate(ph, inputs[0], rest);
      hide Text, Pending, Follows, After, AtHeader, StateOf, Flat, Head;
      if part == [] {
        WholeRead(ph, ts, inputs);
        SoundIff(After(ph, ts), inputs[1..]);
      } else {
        CutIsUnsound(ph, ts, part, inputs);
        NoFilling(ph, ts, part, inputs);
      }
    }
  }

  lemma WholeRead(ph: Phase, ts: seq<Token>, inputs: seq<Octets>)
    requires Proper(ph) && Follows(ph, ts) && inputs != [] && inputs[0] != [] && inputs[0] == Text(ts) + []
    requires Flat(inputs) == Text(Pending(ph))
    ensures Proper(After(ph, ts)) && Flat(inputs[1..]) == Text(Pending(After(ph, ts)))
    ensures Sound(StateOf(ph), inputs, |Flat(inputs)|) <==>
            Sound(StateOf(After(ph, ts)), inputs[1..], |Flat(inputs[1..])|)
    ensures AtTokens(ph, inputs) <==> AtTokens(After(ph, ts), inputs[1..])
  {
    var rest := Flat(inputs[1..]);
    assert Flat(inputs) == inputs[0] + rest && inputs[0] == Text(ts);
    assert ts != [] by { NonEmptyText(ts); }
    PendingSplit(ph, ts);
    EndsNearTheEnd(ph, ts);
    assert Valid(StateOf(ph));
    hide Text, Pending, Follows, After, AtHeader, StateOf, Flat;
    assert rest == Text(Pending(After(ph, ts))) by {
      assert (inputs[0] + rest)[|inputs[0]|..] == rest;
      assert (inputs[0] + Text(Pending(After(ph, ts))))[|inputs[0]|..] == Text(Pending(After(ph, ts)));
    }
    FollowHeader(ph, ts);
    OneFilling(ph, ts, inputs);
  }

  // ----- the whole body -----

  /** Reads that hold whole tokens, taken apart. */
  lemma {:induction false} TakeCuts(ph: Phase, inputs: seq<Octets>) returns (cuts: seq<seq<Token>>)
    requires AtTokens(ph, inputs)
    ensures Texts(cuts) == inputs && Follows(ph, Joined(cuts)) && forall i :: 0 <= i < |cuts| ==> cuts[i] != []
    decreases |inputs|
  {
    if inputs == [] {
      cuts := [];
    } else {
      var ts :| Fills(ph, ts, inputs[0]) && AtTokens(After(ph, ts), inputs[1..]);
      assert inputs == [Text(ts)] + inputs[1..];
      hide Text, Follows, After;
      var more := TakeCuts(After(ph, ts), inputs[1..]);
      cuts := [ts] + more;
      FollowsOn(ph, ts, Joined(more));
      OneMoreCut(ts, more);
    }
  }

  lemma OneMoreCut(ts: seq<Token>, more: seq<seq<Token>>)
    ensures Texts([ts] + more) == [Text(ts)] + Texts(more) && Joined([ts] + more) == ts + Joined(more)
  {
    assert ([ts] + more)[1..] == more;
    hide Text;
  }

  lemma {:induction false} FollowsOn(ph: Phase, a: seq<Token>, b: seq<Token>)
    requires Follows(ph, a) && Follows(After(ph, a), b)
    ensures Follows(ph, a + b)
    decreases |a|
  {
    if a == [] {
      assert a + b == b;
    } else {
      FollowsOn(Next(ph), a[1..], b);
      assert (a + b)[1..] == a[1..] + b;
    }
  }

  lemma {:induction false} TextJoined(cuts: seq<seq<Token>>)
    ensures Text(Joined(cuts)) == Flat(Texts(cuts))
    decreases |cuts|
  {
    if cuts != [] {
      assert Texts(cuts)[1..] == Texts(cuts[1..]) && Texts(cuts)[0] == Text(cuts[0]);
      TextJoined(cuts[1..]);
      TextAppend(cuts[0], Joined(cuts[1..]));
    }
  }

  lemma {:induction false} TextAppend(a: seq<Token>, b: seq<Token>)
    ensures Text(a + b) == Text(a) + Text(b)
    decreases |a|
  {
    if a == [] {
      assert a + b == b;
    } else {
      FirstOf(a, b);
      FirstToken(a[0], a[1..] + b);
      FirstToken(a[0], a[1..]);
      hide Text;
      TextAppend(a[1..], b);
      Associate(TextOf(a[0]), Text(a[1..]), Text(b));
    }
  }

  /** Reads of a whole chunked body, cut anywhere: the reader terminates on each of them and declares the
      end no earlier than behind the last size line exactly when no read ends inside a size line or
      between CR and LF; and then it has delivered the body and one end marker. */
  lemma ReadsSoundIff(chunks: seq<Octets>, inputs: seq<Octets>)
    requires forall i :: 0 <= i < |chunks| ==> chunks[i] != []
    requires Flat(inputs) == Wire(chunks) && forall i :: 0 <= i < |inputs| ==> inputs[i] != []
    ensures Sound(State(0, 0), inputs, |Wire(chunks)|) <==> AtTokens(AtSize(chunks), inputs)
    ensures AtTokens(AtSize(chunks), inputs) ==>
              var r := ReadAll(State(0, 0), inputs);
              r.Ok? && r.st == State(0, 0) && Body(r.events) == Flat(chunks) && Marks(r.events) == 1
  {
    var ph := AtSize(chunks);
    PendingIsWire(chunks);
    SoundIff(ph, inputs);
    if AtTokens(ph, inputs) {
      hide AtTokens, Text, Pending, Follows, ReadAll, Flat, Wire, Sound;
      var cuts := TakeCuts(ph, inputs);
      AllFollow(ph);
      TextJoined(cuts);
      assert Text(Joined(cuts)) + [] == Text(Pending(ph)) && Follows(ph, []) by { assert Follows(ph, []); }
      TokensOf(ph, Joined(cuts), [], Pending(ph));
      ChunkedRoundTrip(chunks, cuts);
    }
  }
}
