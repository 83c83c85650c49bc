/** The in-place DATA framer for CGI output over HTTP/2.

The program's output is read behind a nine-byte gap.  Each frame header is written over the gap or
over bytes already sent, so that header and payload leave in one write; the last bytes of every
read, ten at most, are carried to the next call so that the stream can end with END_STREAM. */
module CgiSender {
  import opened Basics
  import opened Http2Frame
  import opened DataFrames

  const BUFFER: nat := 65536
  const CARRY: nat := 10

  class Sender {
    const id: nat
    const maxFrame: nat
    const buf: array<byte>
    var carry: nat
    var wire: seq<byte>
    ghost var sent: seq<Sent>
    ghost var produced: seq<byte>

    ghost predicate Shape()
      reads this
    {
      && id < TWO_32 && 16384 <= maxFrame < TWO_24
      && buf.Length == BUFFER + HEADER_LEN && carry <= CARRY
      && wire == Emitted(sent, id) && Open(sent)
      && forall i :: 0 <= i < |sent| ==> 1 <= |sent[i].payload| <= maxFrame - HEADER_LEN
    }

    /** Everything sent so far, followed by the carried bytes, is everything produced. */
    ghost predicate Valid()
      reads this, buf
    {
      Shape() && produced == Payload(sent) + buf[HEADER_LEN..HEADER_LEN + carry] && carry == Least(|produced|, CARRY)
    }

    constructor (id: nat, maxFrame: nat)
      requires id < TWO_32 && 16384 <= maxFrame < TWO_24
      ensures Valid() && produced == [] && sent == [] && fresh(buf) && this.id == id && this.maxFrame == maxFrame
    {
      this.id, this.maxFrame := id, maxFrame;
      buf := new byte[BUFFER + HEADER_LEN](_ => 0);
      carry, wire, sent, produced := 0, [], [], [];
    }

    /** BuildHttp2Frame on the buffer itself: nine bytes from `at`, nothing else. */
    method PutHeader(at: nat, n: nat, end: bool)
      requires id < TWO_32 && at + HEADER_LEN <= buf.Length
      modifies buf
      ensures buf[at..at + HEADER_LEN] == DataHeader(n, end, id)
      ensures forall j :: 0 <= j < buf.Length && !(at <= j < at + HEADER_LEN) ==> buf[j] == old(buf[j])
    {
      var h := DataHeader(n, end, id);
      forall k | 0 <= k < HEADER_LEN { buf[at + k] := h[k]; }
    }

    /** One frame, header and payload in a single write. */
    method SendFrame(at: nat, n: nat, ghost payload: seq<byte>)
      requires Shape() && 1 <= n <= maxFrame - HEADER_LEN && at + n <= BUFFER
      requires |payload| == n && forall k :: 0 <= k < n ==> payload[k] == buf[HEADER_LEN + at + k]
      modifies this`wire, this`sent, buf
      ensures Shape() && sent == old(sent) + [Sent(payload, false)]
      ensures forall j :: HEADER_LEN + at <= j < buf.Length ==> buf[j] == old(buf[j])
    {
      hide Emitted;
      PutHeader(at, n, false);
      var frame := buf[at..at + HEADER_LEN + n];
      assert frame == DataHeader(n, false, id) + payload;
      wire := wire + frame;
      EmitOne(sent, Sent(payload, false), id);
      sent := sent + [Sent(payload, false)];
    }

    /** copy(): the carried bytes move to the front of the data area, overlapping ranges included. */
    method MoveCarry(from: nat, n: nat)
      requires HEADER_LEN + from + n <= buf.Length
      modifies buf
      ensures buf[HEADER_LEN..HEADER_LEN + n] == old(buf[HEADER_LEN + from..HEADER_LEN + from + n])
    {
      ghost var was := buf[..];
      for k := 0 to n
        invariant forall j :: HEADER_LEN <= j < HEADER_LEN + k ==> buf[j] == was[j + from]
        invariant forall j :: HEADER_LEN + from + k <= j < buf.Length ==> buf[j] == was[j]
      {
        buf[HEADER_LEN + k] := buf[HEADER_LEN + from + k];
      }
      MovedBytes(was, buf[..], from, n);
      assert was[HEADER_LEN + from..HEADER_LEN + from + n] == old(buf[HEADER_LEN + from..HEADER_LEN + from + n]);
    }

    /** In the middle of one fnSendOutput call: `data` was handed over after `before` had been sent, and
        `transferred` bytes of it are on the wire.  The rest still lies unharmed in the buffer. */
    ghost predicate Sending(data: seq<byte>, before: seq<byte>, transferred: nat)
      reads this, buf
    {
      && Shape() && transferred <= |data| <= BUFFER
      && Payload(sent) == before + data[..transferred]
      && forall k :: transferred <= k < |data| ==> data[k] == buf[HEADER_LEN + k]
    }

    method SendNext(ghost data: seq<byte>, ghost before: seq<byte>, transferred: nat, n: nat)
      requires Sending(data, before, transferred)
      requires 1 <= n <= maxFrame - HEADER_LEN && transferred + n <= |data|
      modifies this`wire, this`sent, buf
      ensures Sending(data, before, transferred + n) && old(sent) <= sent
    {
      ghost var payload := data[transferred..transferred + n];
      EmitOne(sent, Sent(payload, false), id);
      assert (before + data[..transferred]) + payload == before + data[..transferred + n];
      assert buf.Length == BUFFER + HEADER_LEN;
      hide Shape, Emitted, Payload;
      SendFrame(transferred, n, payload);
    }

    /** The send loop.  `grants` are the outcomes of the successive turns; running out of them is a stop.
        Every turn that is let through sends something. */
    method SendLoop(ghost data: seq<byte>, ghost before: seq<byte>, bufLen: nat, grants: seq<Grant>)
        returns (transferred: nat)
      requires Sending(data, before, 0) && bufLen <= |data| && maxFrame > HEADER_LEN
      requires forall g :: g in grants && g.Window? ==> g.n > 0
      modifies this`wire, this`sent, buf
      ensures transferred <= bufLen && Sending(data, before, transferred) && old(sent) <= sent
      ensures transferred >= Least(bufLen, Turns(grants))
    {
      transferred := 0;
      var turn: nat := 0;
      assert Turns(grants[..0]) == 0 == Least(bufLen, 0) && grants[..|grants|] == grants;
      hide *;
      while transferred < bufLen && turn < |grants|
        invariant transferred <= bufLen && turn <= |grants|
        invariant Sending(data, before, transferred) && old(sent) <= sent
        invariant transferred >= Least(bufLen, Turns(grants[..turn]))
        decreases |grants| - turn
      {
        var grant := grants[turn];
        TurnsSoFar(grants, turn);
        turn := turn + 1;
        if grant.Blocked? { continue; }
        var n := Least(Least(maxFrame - HEADER_LEN, bufLen - transferred), grant.n);
        TurnAdvances(maxFrame - HEADER_LEN, bufLen, transferred, grant.n, Turns(grants[..turn - 1]));
        SendNext(data, before, transferred, n);
        transferred := transferred + n;
      }
    }

    /** fnSendOutput once the response headers are out. */
    method SendOutput(len: nat, grants: seq<Grant>) returns (done: bool)
      requires Shape() && 1 <= len <= BUFFER && (forall g :: g in grants && g.Window? ==> g.n > 0)
      requires produced == Payload(sent) + buf[HEADER_LEN..HEADER_LEN + len] && (Payload(sent) == [] || len >= CARRY)
      modifies this`carry, this`wire, this`sent, buf
      ensures Shape() && carry == Least(len, CARRY) && old(sent) <= sent
      ensures Payload(sent) <= Settled(produced)
      ensures done ==> Valid()
      ensures done <==> |Payload(sent)| == |produced| - carry
      ensures Turns(grants) >= len ==> done
    {
      ghost var (data, before) := (buf[HEADER_LEN..HEADER_LEN + len], Payload(sent));
      assert Sending(data, before, 0) by { assert before + data[..0] == before; }
      assert maxFrame > HEADER_LEN;
      var bufLen := len - Least(len, CARRY);
      hide *;
      var transferred := SendLoop(data, before, bufLen, grants);
      done := transferred == bufLen;
      KeepRest(data, before, transferred, len);
    }

    /** The end of the call: the last bytes of the read become the carried bytes. */
    method KeepRest(ghost data: seq<byte>, ghost before: seq<byte>, transferred: nat, len: nat)
      requires Sending(data, before, transferred) && len == |data| && transferred <= len - Least(len, CARRY)
      requires produced == before + data && (before == [] || len >= CARRY)
      modifies this`carry, buf
      ensures Shape() && carry == Least(len, CARRY)
              && Payload(sent) == before + data[..transferred] <= Settled(produced)
      ensures transferred == len - carry ==> Valid()
    {
      carry := Least(len, CARRY);
      RestIsCarried(before, data, transferred);
      CarriedBytes(buf[..], data, transferred, carry);
      hide Emitted, Payload, Open, Settled;
      MoveCarry(transferred, carry);
    }

    /** One read of the program's output and the call that sends it. */
    method ReadAndSend(chunk: seq<byte>, grants: seq<Grant>) returns (done: bool)
      requires Valid() && 1 <= |chunk| <= BUFFER - carry && (forall g :: g in grants && g.Window? ==> g.n > 0)
      modifies this`carry, this`wire, this`sent, this`produced, buf
      ensures produced == old(produced) + chunk && old(sent) <= sent
      ensures Shape() && Payload(sent) <= Settled(produced)
      ensures done ==> Valid()
      ensures Turns(grants) >= |chunk| + old(carry) ==> done
    {
      var at := HEADER_LEN + carry;
      forall k | 0 <= k < |chunk| { buf[at + k] := chunk[k]; }
      var len := |chunk| + carry;
      ghost var carried := old(buf[HEADER_LEN..HEADER_LEN + carry]);
      produced := produced + chunk;
      assert buf[HEADER_LEN..HEADER_LEN + len] == carried + chunk;
      Associate(Payload(sent), carried, chunk);
      assert Payload(sent) == [] || carry == CARRY;
      carry := 0;
      hide Settled, Payload, Open, Emitted, Turns;
      done := SendOutput(len, grants);
    }

    /** fnAfterCgi: the carried bytes leave in the last frame, which takes no grant. */
    method AfterCgi()
      requires Valid()
      modifies this`wire, this`sent, buf
      ensures EndsOnLast(sent) && Payload(sent) == produced && wire == Emitted(sent, id)
      ensures |sent| == |old(sent)| + 1 && |sent[|sent| - 1].payload| == carry
    {
      ghost var s := Sent(buf[HEADER_LEN..HEADER_LEN + carry], true);
      hide Emitted;
      PutHeader(0, carry, true);
      var frame := buf[..HEADER_LEN + carry];
      assert buf[HEADER_LEN..HEADER_LEN + carry] == s.payload && buf[0..HEADER_LEN] == buf[..HEADER_LEN];
      assert frame == DataHeader(carry, true, id) + s.payload;
      wire := wire + frame;
      EmitOne(sent, s, id);
      sent := sent + [s];
    }

    /** ReadErrFromSpawn reads the program's error output to the start of the same buffer. */
    method ReadErrorOutput(err: seq<byte>)
      requires Valid() && |err| <= BUFFER
      modifies this`produced, buf
      ensures Valid() && produced == Spoiled(old(produced), err)
      ensures buf[..] == Overwritten(old(buf[..]), err)
    {
      ghost var (was, carried) := (buf[..], buf[HEADER_LEN..HEADER_LEN + carry]);
      forall k | 0 <= k < |err| { buf[k] := err[k]; }
      produced := Spoiled(produced, err);
      assert buf[..] == Overwritten(was, err);
      SpoiledTail(Payload(sent), carried, err);
      OverwrittenTail(was, carry, err);
      assert buf[HEADER_LEN..HEADER_LEN + carry] == buf[..][HEADER_LEN..HEADER_LEN + carry];
      hide Emitted, Open, Payload, Spoiled, Over, Overwritten;
    }

    /** A whole response body: every read of the program's output is sent, error output is read as it
        comes, then the stream is ended.  With enough turns for every call the body is complete. */
    method Respond(pieces: seq<Read>) returns (done: bool)
      requires Valid() && produced == [] && forall i :: 0 <= i < |pieces| ==> Readable(pieces, i)
      modifies this`carry, this`wire, this`sent, this`produced, buf
      ensures Payload(sent) <= Produced(pieces)
      ensures done ==> EndsOnLast(sent) && Payload(sent) == Produced(pieces) && wire == Emitted(sent, id)
      ensures (forall i :: 0 <= i < |pieces| && pieces[i].Output? ==>
              Turns(pieces[i].grants) >= |pieces[i].chunk| + CARRY) ==> done
    {
      done := true;
      assert pieces[..|pieces|] == pieces;
      hide *;
      for i := 0 to |pieces|
        invariant done && Valid() && produced == Produced(pieces[..i])
      {
        done := Turn(pieces, i);
        if !done {
          SettledForGood(pieces, i + 1);
          return;
        }
      }
      AfterCgi();
    }

    method Turn(pieces: seq<Read>, i: nat) returns (done: bool)
      requires Valid() && i < |pieces| && produced == Produced(pieces[..i]) && Readable(pieces, i)
      modifies this`carry, this`wire, this`sent, this`produced, buf
      ensures Payload(sent) <= Settled(Produced(pieces[..i + 1]))
      ensures done ==> Valid() && produced == Produced(pieces[..i + 1])
      ensures (pieces[i].Output? ==> Turns(pieces[i].grants) >= |pieces[i].chunk| + CARRY) ==> done
    {
      OneMoreRead(pieces, i);
      hide Emitted, Turns, Produced;
      match pieces[i]
      case Output(chunk, grants) => done := ReadAndSend(chunk, grants);
      case Error(err) =>
        ReadErrorOutput(err);
        done := true;
    }
  }

  // ----- what the program's reads amount to -----

  /** Output, with the turns its call gets, or error output. */
  datatype Read = Output(chunk: seq<byte>, grants: seq<Grant>) | Error(err: seq<byte>)

  /** The size of a read: output fills at most the buffer behind the carried bytes. */
  ghost predicate Readable(pieces: seq<Read>, i: nat)
    requires i < |pieces|
  {
    match pieces[i]
    case Output(chunk, grants) =>
      && 1 <= |chunk| <= BUFFER - Least(|Produced(pieces[..i])|, CARRY)
      && forall g :: g in grants && g.Window? ==> g.n > 0
    case Error(err) => |err| <= BUFFER
  }

  /** All but the bytes carried. */
  function Settled(p: seq<byte>): seq<byte> { p[..|p| - Least(|p|, CARRY)] }

  lemma RestIsCarried(before: seq<byte>, data: seq<byte>, t: nat)
    requires (before == [] || |data| >= CARRY) && t <= |data| - Least(|data|, CARRY)
    ensures Least(|before + data|, CARRY) == Least(|data|, CARRY)
    ensures before + data[..t] <= Settled(before + data)
    ensures t == |data| - Least(|data|, CARRY) ==>
              before + data == before + data[..t] + data[t..t + Least(|data|, CARRY)]
  {
    assert before + data == (before + data[..t]) + data[t..];
  }

  lemma CarriedBytes(b: seq<byte>, data: seq<byte>, t: nat, c: nat)
    requires t + c <= |data| && HEADER_LEN + |data| <= |b| && forall k :: t <= k < |data| ==>
             data[k] == b[HEADER_LEN + k]
    ensures b[HEADER_LEN + t..HEADER_LEN + t + c] == data[t..t + c]
  {
  }

  function Over(tail: seq<byte>, err: seq<byte>): (t: seq<byte>)
    ensures |t| == |tail|
  {
    seq(|tail|, k requires 0 <= k < |tail| => if HEADER_LEN + k < |err| then err[HEADER_LEN + k] else tail[k])
  }

  /** What is left of the bytes produced once `err` has been read over the carried ones. */
  function Spoiled(p: seq<byte>, err: seq<byte>): (q: seq<byte>)
    ensures |q| == |p|
  {
    Settled(p) + Over(p[|Settled(p)|..], err)
  }

  /** The body the buffer makes of the reads. */
  function Produced(pieces: seq<Read>): seq<byte> {
    if pieces == [] then [] else
      var front := Produced(pieces[..|pieces| - 1]);
      match pieces[|pieces| - 1]
      case Output(chunk, _) => front + chunk
      case Error(err) => Spoiled(front, err)
  }

  /** The program's output. */
  function Outputs(pieces: seq<Read>): seq<byte> {
    if pieces == [] then [] else
      var front := Outputs(pieces[..|pieces| - 1]);
      match pieces[|pieces| - 1]
      case Output(chunk, _) => front + chunk
      case Error(_) => front
  }

  lemma SpoiledTail(before: seq<byte>, tail: seq<byte>, err: seq<byte>)
    requires |tail| == Least(|before + tail|, CARRY)
    ensures Spoiled(before + tail, err) == before + Over(tail, err)
  {
    assert (before + tail)[|before|..] == tail && (before + tail)[..|before|] == before;
  }

  lemma OneMoreRead(pieces: seq<Read>, i: nat)
    requires i < |pieces|
    ensures Produced(pieces[..i + 1]) == match pieces[i]
            case Output(chunk, _) => Produced(pieces[..i]) + chunk
            case Error(err) => Spoiled(Produced(pieces[..i]), err)
    ensures Settled(Produced(pieces[..i])) <= Settled(Produced(pieces[..i + 1]))
  {
    assert pieces[..i + 1][..i] == pieces[..i];
  }

  /** What is not carried any more stays as it is. */
  lemma {:induction false} SettledForGood(pieces: seq<Read>, i: nat)
    requires i <= |pieces|
    ensures Settled(Produced(pieces[..i])) <= Produced(pieces)
    decreases |pieces| - i
  {
    assert pieces[..|pieces|] == pieces;
    if i < |pieces| {
      OneMoreRead(pieces, i);
      SettledForGood(pieces, i + 1);
    }
  }

  /** The same reads, apart from what the error output says. */
  predicate SameButErrors(a: seq<Read>, b: seq<Read>) {
    |a| == |b| && forall i :: 0 <= i < |a| ==>
      if a[i].Output? then b[i] == a[i] else b[i].Error? && |b[i].err| == |a[i].err|
  }

  /** Every error output fits in the header gap or is read before anything has been produced. */
  predicate Harmless(pieces: seq<Read>) {
    forall i :: 0 <= i < |pieces| && pieces[i].Error? ==> |pieces[i].err| <= HEADER_LEN || Outputs(pieces[..i]) == []
  }

  lemma {:induction false} SameLength(pieces: seq<Read>)
    ensures |Produced(pieces)| == |Outputs(pieces)|
  {
    if pieces != [] { SameLength(pieces[..|pieces| - 1]); }
  }

  lemma OneMore(pieces: seq<Read>)
    requires pieces != []
    ensures var (front, last) := (pieces[..|pieces| - 1], pieces[|pieces| - 1]);
            && Produced(pieces) == (match last
                                    case Output(chunk, _) => Produced(front) + chunk
                                    case Error(err) => Spoiled(Produced(front), err))
            && Outputs(pieces) == (match last
                                   case Output(chunk, _) => Outputs(front) + chunk
                                   case Error(_) => Outputs(front))
            && (Harmless(pieces) <==>
                  Harmless(front) && (last.Error? ==> |last.err| <= HEADER_LEN || Outputs(front) == []))
  {
    HarmlessSoFar(pieces);
    hide Spoiled, Harmless;
  }

  lemma HarmlessSoFar(pieces: seq<Read>)
    requires pieces != []
    ensures var (front, last) := (pieces[..|pieces| - 1], pieces[|pieces| - 1]);
            Harmless(pieces) <==> Harmless(front) && (last.Error? ==> |last.err| <= HEADER_LEN || Outputs(front) == [])
  {
    hide Outputs;
    var (n, front) := (|pieces| - 1, pieces[..|pieces| - 1]);
    forall i | 0 <= i < n ensures front[..i] == pieces[..i] && front[i] == pieces[i] {}
    if Harmless(front) && (pieces[n].Error? ==> |pieces[n].err| <= HEADER_LEN || Outputs(front) == []) {
      forall i | 0 <= i < |pieces| && pieces[i].Error?
        ensures |pieces[i].err| <= HEADER_LEN || Outputs(pieces[..i]) == []
      {
        if i < n { assert front[i].Error? && front[..i] == pieces[..i]; }
      }
    }
  }

  lemma SpoiltByNothing(p: seq<byte>, err: seq<byte>)
    requires |err| <= HEADER_LEN || p == []
    ensures Spoiled(p, err) == p
  {
  }

  lemma {:induction false} IntactIfHarmless(pieces: seq<Read>)
    requires Harmless(pieces)
    ensures Produced(pieces) == Outputs(pieces)
  {
    if pieces != [] {
      var (front, last) := (pieces[..|pieces| - 1], pieces[|pieces| - 1]);
      OneMore(pieces);
      hide *;
      IntactIfHarmless(front);
      if last.Error? { SpoiltByNothing(Outputs(front), last.err); }
    }
  }

  lemma HarmlessAlike(a: seq<Read>, b: seq<Read>)
    requires SameButErrors(a, b)
    ensures Outputs(a) == Outputs(b) && (Harmless(a) ==> Harmless(b))
  {
    OutputsAlike(a, b);
    forall i | 0 <= i < |a| ensures Outputs(a[..i]) == Outputs(b[..i]) { OutputsAlike(a[..i], b[..i]); }
  }

  lemma {:induction false} OutputsAlike(a: seq<Read>, b: seq<Read>)
    requires SameButErrors(a, b)
    ensures Outputs(a) == Outputs(b)
    decreases |a|
  {
    if a != [] { OutputsAlike(a[..|a| - 1], b[..|b| - 1]); }
  }

  /** Error output of the size of `last` that spoils the byte carried first. */
  lemma SpoilLast(front: seq<Read>, last: Read) returns (rs: seq<Read>)
    requires last.Error? && |last.err| > HEADER_LEN && Outputs(front) != []
    ensures SameButErrors(front + [last], rs) && Produced(rs) != Outputs(front)
  {
    SameLength(front);
    var p := Produced(front);
    var at := |Settled(p)|;
    var other: byte := if Outputs(front)[at] == 0 then 1 else 0;
    var err := seq(|last.err|, _ => other);
    rs := front + [Error(err)];
    assert rs[..|front|] == front;
    hide Outputs;
    assert Produced(rs) == Spoiled(p, err);
    assert Spoiled(p, err)[at] == err[HEADER_LEN] == other;
  }

  /** Error output that spoils the body. */
  lemma {:induction false} Spoiling(pieces: seq<Read>) returns (rs: seq<Read>)
    requires !Harmless(pieces)
    ensures SameButErrors(pieces, rs) && Produced(rs) != Outputs(pieces)
  {
    assert pieces != [];
    hide *;
    OneMore(pieces);
    var (front, last) := (pieces[..|pieces| - 1], pieces[|pieces| - 1]);
    assert pieces == front + [last];
    if last.Error? && |last.err| > HEADER_LEN && Outputs(front) != [] {
      rs := SpoilLast(front, last);
    } else {
      var rs1 := Spoiling(front);
      rs := rs1 + [last];
      LastKeepsSpoiled(front, rs1, last);
    }
  }

  lemma LastKeepsSpoiled(front: seq<Read>, rs: seq<Read>, last: Read)
    requires SameButErrors(front, rs) && Produced(rs) != Outputs(front)
    requires last.Error? ==> |last.err| <= HEADER_LEN || Outputs(front) == []
    ensures SameButErrors(front + [last], rs + [last]) && Produced(rs + [last]) != Outputs(front + [last])
  {
    SameLength(rs);
    OutputsAlike(front, rs);
    assert (rs + [last])[..|rs|] == rs && (front + [last])[..|front|] == front;
    var (p, q) := (Produced(rs), Outputs(front));
    if last.Output? {
      assert (p + last.chunk)[..|p|] == p && (q + last.chunk)[..|q|] == q;
    } else {
      assert Spoiled(p, last.err) == p;
    }
  }

  /** The body sent is the program's output whatever its error output says exactly when every piece of
      error output is harmless. */
  lemma BodyIsOutputIff(pieces: seq<Read>)
    ensures (forall rs | SameButErrors(pieces, rs) :: Produced(rs) == Outputs(pieces)) <==> Harmless(pieces)
  {
    if Harmless(pieces) {
      forall rs | SameButErrors(pieces, rs) ensures Produced(rs) == Outputs(pieces) {
        HarmlessAlike(pieces, rs);
        IntactIfHarmless(rs);
      }
    } else {
      var rs := Spoiling(pieces);
    }
  }

  // ----- the buffer -----

  function Overwritten(b: seq<byte>, err: seq<byte>): seq<byte>
    requires |err| <= |b|
  {
    err + b[|err|..]
  }

  lemma MovedBytes(was: seq<byte>, b: seq<byte>, from: nat, n: nat)
    requires |b| == |was| && HEADER_LEN + from + n <= |b|
    requires forall j :: HEADER_LEN <= j < HEADER_LEN + n ==> b[j] == was[j + from]
    ensures b[HEADER_LEN..HEADER_LEN + n] == was[HEADER_LEN + from..HEADER_LEN + from + n]
  {
  }

  lemma OverwrittenTail(b: seq<byte>, carry: nat, err: seq<byte>)
    requires HEADER_LEN + carry <= |b| && |err| <= |b|
    ensures Overwritten(b, err)[HEADER_LEN..HEADER_LEN + carry] == Over(b[HEADER_LEN..HEADER_LEN + carry], err)
  {
  }

  /** Error output of `n` bytes leaves the carried bytes alone, whatever it says, exactly when it fits
      in the header gap or nothing is carried.  Otherwise the body sent is not the body produced. */
  lemma CarrySurvivesErrorOutput(b: seq<byte>, carry: nat, n: nat)
    requires carry <= CARRY && n <= BUFFER && |b| == BUFFER + HEADER_LEN
    ensures (forall err: seq<byte> | |err| == n ::
            Overwritten(b, err)[HEADER_LEN..HEADER_LEN + carry] == b[HEADER_LEN..HEADER_LEN + carry])
       <==> n <= HEADER_LEN || carry == 0
  {
    if n > HEADER_LEN && carry > 0 {
      var other: byte := if b[HEADER_LEN] == 0 then 1 else 0;
      var err: seq<byte> := seq(n, i => other);
      var b' := Overwritten(b, err);
      assert |err| == n && b'[HEADER_LEN] == err[HEADER_LEN] == other;
      DifferAt(b', b, carry);
    }
  }

  lemma DifferAt(a: seq<byte>, b: seq<byte>, carry: nat)
    requires HEADER_LEN + carry <= |a| && HEADER_LEN + carry <= |b| && carry > 0 && a[HEADER_LEN] != b[HEADER_LEN]
    ensures a[HEADER_LEN..HEADER_LEN + carry] != b[HEADER_LEN..HEADER_LEN + carry]
  {
    assert a[HEADER_LEN..HEADER_LEN + carry][0] == a[HEADER_LEN]
      && b[HEADER_LEN..HEADER_LEN + carry][0] == b[HEADER_LEN];
  }

  /** A whole CGI response: the peer cuts the wire into the frames sent, and their payloads are the output. */
  lemma ResponseOnTheWire(sent: seq<Sent>, id: nat)
    requires id < TWO_31 && (id / TWO_27) % 2 == 0 && EndsOnLast(sent)
    requires forall i :: 0 <= i < |sent| ==> |sent[i].payload| < TWO_24
    ensures var fs := Cut(Emitted(sent, id)).frames;
            && Cut(Emitted(sent, id)).residual == [] && |fs| == |sent|
            && (forall i :: 0 <= i < |fs| ==> fs[i].payload == sent[i].payload && fs[i].hdr.streamId == id)
            && (forall i :: 0 <= i < |fs| ==> (fs[i].hdr.flag == 1 <==> i == |fs| - 1))
  {
    PeerSeesFrames(sent, id);
  }
}
