/** Length-prefixed frames over a byte stream with short writes, short reads, timeouts and cuts. */
module Framing {
  import opened Bytes
  import opened Sequences
  import opened Wrappers

  type Payload = seq<byte>

  /** The bytes of one frame: the size, cut to 32 bits, big-endian, then the payload. */
  function Frame(p: Payload): seq<byte> {
    BigEndian(|p| % TWO_32, 4) + p
  }

  function Stream(ps: seq<Payload>): seq<byte> {
    if ps == [] then [] else Frame(ps[0]) + Stream(ps[1..])
  }

  /** The first frame of a stream and what follows it, or None when the stream ends inside it. */
  function FirstFrame(s: seq<byte>): Option<(Payload, seq<byte>)> {
    if |s| < 4 then None
    else
      var len := FromBigEndian(s[..4]);
      if |s| < 4 + len then None
      else Some((s[4..4 + len], s[4 + len..]))
  }

  /** What repeated recv_frame returns before its first error. */
  function Frames(s: seq<byte>): seq<Payload>
    decreases |s|
  {
    var first := FirstFrame(s);
    if first.None? then [] else [first.value.0] + Frames(first.value.1)
  }

  ghost predicate Sendable(ps: seq<Payload>) {
    forall i :: 0 <= i < |ps| ==> |ps[i]| < TWO_32
  }

  /** The size stands first, its most significant byte first, and the payload follows. */
  lemma FrameBytes(p: Payload)
    requires |p| < TWO_32
    ensures var f := Frame(p);
      && |f| == 4 + |p| && f[4..] == p
      && f[0] as int * 0x100_0000 + f[1] as int * 0x1_0000 + f[2] as int * 0x100 + f[3] as int == |p|
  {
    hide BigEndian;
    var n := |p|;
    BigEndianUnfolds(n, 3);
    BigEndianUnfolds(n / 256, 2);
    BigEndianUnfolds(n / 256 / 256, 1);
    BigEndianUnfolds(n / 256 / 256 / 256, 0);
  }

  /** A frame is read back exactly, with the bytes after it, when its size fits 32 bits. */
  lemma FirstFrameOfFrame(p: Payload, rest: seq<byte>)
    requires |p| < TWO_32
    ensures FirstFrame(Frame(p) + rest) == Some((p, rest))
  {
    hide BigEndian, FromBigEndian;
    Powers();
    BigEndianRoundTrip(|p|, 4);
    var s := Frame(p) + rest;
    assert s[..4] == BigEndian(|p|, 4);
    assert s[4..4 + |p|] == p && s[4 + |p|..] == rest;
  }

  /** One frame alone is read back if and only if the payload is shorter than 2^32 bytes: beyond
      that the size wraps, and the receiver returns fewer bytes than were sent. */
  lemma RoundTripIff(p: Payload)
    ensures Frames(Frame(p)) == [p] <==> |p| < TWO_32
  {
    var s := Frame(p);
    if |p| < TWO_32 {
      assert s == s + [];
      FirstFrameOfFrame(p, []);
    } else {
      Powers();
      BigEndianRoundTrip(|p| % TWO_32, 4);
      assert s[..4] == BigEndian(|p| % TWO_32, 4);
      assert FirstFrame(s).Some? && |FirstFrame(s).value.0| < |p|;
      assert Frames(s)[0] == FirstFrame(s).value.0;
    }
  }

  /** Every list of payloads shorter than 2^32 bytes comes back in order, and then the stream is at
      its end. */
  lemma {:induction false} FramesOfStream(ps: seq<Payload>)
    requires Sendable(ps)
    ensures Frames(Stream(ps)) == ps
  {
    if ps != [] {
      FramesOfStream(ps[1..]);
      FirstFrameOfFrame(ps[0], Stream(ps[1..]));
      assert ps == [ps[0]] + ps[1..];
    }
  }

  /** A list of payloads comes back exactly if and only if every one of them is shorter than 2^32 bytes: the first
      longer one is read back shorter than it was. */
  lemma {:induction false} StreamRoundTripIff(ps: seq<Payload>)
    ensures Frames(Stream(ps)) == ps <==> Sendable(ps)
  {
    hide Frame, FirstFrame, Frames, BigEndian, FromBigEndian;
    if Sendable(ps) {
      FramesOfStream(ps);
    } else if |ps[0]| < TWO_32 {
      StreamRoundTripIff(ps[1..]);
      FramesCons(ps[0], Stream(ps[1..]));
      SendableCons(ps);
      assert ps == [ps[0]] + ps[1..];
    } else {
      LongPayloadIsCut(ps[0], Stream(ps[1..]));
    }
  }

  lemma SendableCons(ps: seq<Payload>)
    requires ps != []
    ensures Sendable(ps) <==> |ps[0]| < TWO_32 && Sendable(ps[1..])
  {
    assert ps == [ps[0]] + ps[1..];
  }

  lemma LongPayloadIsCut(p: Payload, rest: seq<byte>)
    requires |p| >= TWO_32
    ensures Frames(Frame(p) + rest) != [] && |Frames(Frame(p) + rest)[0]| < |p|
  {
    hide BigEndian, FromBigEndian;
    Powers();
    BigEndianRoundTrip(|p| % TWO_32, 4);
    var s := Frame(p) + rest;
    assert s[..4] == BigEndian(|p| % TWO_32, 4);
    FramesUnfold(s);
  }

  /** A frame cut short is never read. */
  lemma CutFrameIsRejected(p: Payload, n: nat)
    requires |p| < TWO_32 && n < 4 + |p|
    ensures FirstFrame(Frame(p)[..n]).None?
  {
    if n >= 4 {
      Powers();
      BigEndianRoundTrip(|p|, 4);
      assert Frame(p)[..n][..4] == BigEndian(|p|, 4);
    }
  }

  /** A stream cut anywhere yields exactly the payloads whose frames lie wholly before the cut. */
  lemma {:induction false} FramesOfCutStream(ps: seq<Payload>, n: nat)
    requires Sendable(ps) && n <= |Stream(ps)|
    ensures exists k :: WholeFrames(ps, n, k) && Frames(Stream(ps)[..n]) == ps[..k]
  {
    hide BigEndian, FromBigEndian;
    var s := Stream(ps)[..n];
    if ps == [] {
      assert WholeFrames(ps, n, 0) && Frames(s) == ps[..0];
    } else if n < 4 + |ps[0]| {
      assert s == Frame(ps[0])[..n];
      CutFrameIsRejected(ps[0], n);
      assert Stream(ps[..0]) == [] && ps[..1][1..] == [] && Stream(ps[..1]) == Frame(ps[0]) + Stream([]);
      assert WholeFrames(ps, n, 0) && Frames(s) == ps[..0];
    } else {
      var m := n - 4 - |ps[0]|;
      FramesOfCutStream(ps[1..], m);
      var k :| WholeFrames(ps[1..], m, k) && Frames(Stream(ps[1..])[..m]) == ps[1..][..k];
      CutAfterFirst(ps, n, k);
    }
  }

  lemma CutAfterFirst(ps: seq<Payload>, n: nat, k: nat)
    requires Sendable(ps) && ps != [] && 4 + |ps[0]| <= n <= |Stream(ps)|
    requires var m := n - 4 - |ps[0]|;
      WholeFrames(ps[1..], m, k) && Frames(Stream(ps[1..])[..m]) == ps[1..][..k]
    ensures WholeFrames(ps, n, k + 1) && Frames(Stream(ps)[..n]) == ps[..k + 1]
  {
    hide FirstFrame, Frames, BigEndian, FromBigEndian;
    var rest := Stream(ps[1..])[..n - 4 - |ps[0]|];
    assert Stream(ps)[..n] == Frame(ps[0]) + rest;
    FramesCons(ps[0], rest);
    assert ps[..k + 1] == [ps[0]] + ps[1..][..k];
    WholeFramesShift(ps, n, k);
  }

  lemma WholeFramesShift(ps: seq<Payload>, n: nat, k: nat)
    requires ps != [] && 4 + |ps[0]| <= n
    requires WholeFrames(ps[1..], n - 4 - |ps[0]|, k)
    ensures WholeFrames(ps, n, k + 1)
  {
    hide Stream;
    StreamOfPrefix(ps, k + 1);
    if k + 1 < |ps| {
      StreamOfPrefix(ps, k + 2);
    }
  }

  lemma FramesCons(p: Payload, rest: seq<byte>)
    requires |p| < TWO_32
    ensures Frames(Frame(p) + rest) == [p] + Frames(rest)
  {
    hide FirstFrame, Frame;
    FirstFrameOfFrame(p, rest);
  }

  /** The first k frames fit into n bytes and the next does not. */
  ghost predicate WholeFrames(ps: seq<Payload>, n: nat, k: int) {
    && 0 <= k <= |ps|
    && |Stream(ps[..k])| <= n
    && (k < |ps| ==> n < |Stream(ps[..k + 1])|)
  }

  lemma StreamOfPrefix(ps: seq<Payload>, k: nat)
    requires 0 < k <= |ps|
    ensures Stream(ps[..k]) == Frame(ps[0]) + Stream(ps[1..][..k - 1])
  {
    assert ps[..k][1..] == ps[1..][..k - 1];
  }

  lemma StreamOfNone()
    ensures Stream([]) == []
  {
  }

  lemma StreamUnfolds(ps: seq<Payload>)
    requires ps != []
    ensures Stream(ps) == Frame(ps[0]) + Stream(ps[1..])
  {
    hide Frame;
  }

  /** A list of payloads, split before and after one of them. */
  lemma {:induction false} StreamSplits(ps: seq<Payload>, i: nat)
    requires i < |ps|
    ensures Stream(ps[..i + 1]) == Stream(ps[..i]) + Frame(ps[i])
    ensures Stream(ps) == Stream(ps[..i + 1]) + Stream(ps[i + 1..])
  {
    hide Frame, Stream;
    StreamOfPrefix(ps, i + 1);
    StreamUnfolds(ps);
    StreamOfNone();
    var head, tail := Frame(ps[0]), ps[1..];
    if i == 0 {
      assert ps[..0] == [] && tail[..0] == [];
    } else {
      StreamOfPrefix(ps, i);
      StreamSplits(tail, i - 1);
      assert tail[i..] == ps[i + 1..];
      Associate(head, Stream(tail[..i - 1]), Frame(ps[i]));
      Associate(head, Stream(tail[..i]), Stream(ps[i + 1..]));
    }
  }

  lemma FramesUnfold(s: seq<byte>)
    ensures FirstFrame(s).None? ==> Frames(s) == []
    ensures FirstFrame(s).Some? ==> Frames(s) == [FirstFrame(s).value.0] + Frames(FirstFrame(s).value.1)
    ensures FirstFrame(s).Some? ==> |FirstFrame(s).value.1| < |s|
  {
  }

  // ---- the socket loops ----

  datatype RecvResult = Received(payload: Payload) | TimedOut | Closed

  /** A connected socket: the bytes still to come before the peer closes, the bytes sent so far, how many operations
      have failed, and how many of them because a read timed out. */
  class Socket {
    var inbound: seq<byte>
    var outbound: seq<byte>
    ghost var faults: nat
    ghost var timeouts: nat

    constructor (inbound: seq<byte>)
      ensures this.inbound == inbound && outbound == [] && faults == 0 && timeouts == 0
    {
      this.inbound, outbound, faults, timeouts := inbound, [], 0, 0;
    }

    /** Accepts at least one byte, or fails. */
    method SendData(data: seq<byte>) returns (n: int)
      requires data != []
      modifies this`outbound, this`faults
      ensures n < 0 ==> outbound == old(outbound) && faults > old(faults)
      ensures n >= 0 ==> 1 <= n <= |data| && outbound == old(outbound) + data[..n] && faults == old(faults)
    {
      var accepted: int := *;
      n := if 1 <= accepted <= |data| then accepted else -1;
      if n < 0 {
        faults := faults + 1;
      } else {
        outbound := outbound + data[..n];
      }
    }

    /** Delivers at least one of the bytes to come; 0 at the end of the stream, -2 after a timeout,
        -1 after another failure. */
    method RecvData(buffer: array<byte>, offset: nat, maxlen: nat) returns (n: int)
      requires 0 < maxlen && offset + maxlen <= buffer.Length
      modifies this`inbound, this`faults, this`timeouts, buffer
      ensures timeouts == old(timeouts) + if n == -2 then 1 else 0
      ensures n <= 0 ==> inbound == old(inbound) && buffer[..] == old(buffer[..])
      ensures n == 0 <==> old(inbound) == [] && faults == old(faults)
      ensures n < 0 ==> faults > old(faults)
      ensures n > 0 ==> n <= maxlen && n <= |old(inbound)| && faults == old(faults)
      ensures n > 0 ==> inbound == old(inbound)[n..]
      ensures n > 0 ==> buffer[..offset + n] == old(buffer[..offset]) + old(inbound)[..n]
    {
      var fault: bool := *;
      if fault {
        var timeout: bool := *;
        n := if timeout then -2 else -1;
        faults := faults + 1;
        timeouts := timeouts + if timeout then 1 else 0;
      } else if inbound == [] {
        n := 0;
      } else {
        var available: int := *;
        n := if 1 <= available <= maxlen && available <= |inbound| then available else 1;
        for i := 0 to n
          invariant buffer[..offset + i] == old(buffer[..offset]) + inbound[..i]
          modifies buffer
        {
          buffer[offset + i] := inbound[i];
        }
        inbound := inbound[n..];
      }
    }

    method WriteBytes(data: seq<byte>) returns (ok: bool)
      modifies this`outbound, this`faults
      ensures ok ==> outbound == old(outbound) + data && faults == old(faults)
      ensures !ok ==> faults > old(faults)
      ensures !ok ==> exists n :: 0 <= n < |data| && outbound == old(outbound) + data[..n]
    {
      var offset := 0;
      while offset < |data|
        invariant 0 <= offset <= |data|
        invariant outbound == old(outbound) + data[..offset] && faults == old(faults)
      {
        var n := SendData(data[offset..]);
        if n < 0 { return false; }
        assert data[..offset] + data[offset..][..n] == data[..offset + n];
        offset := offset + n;
      }
      return true;
    }

    /** Reads until len bytes have come, the stream ends, or an operation fails. */
    method ReadExact(buffer: array<byte>, len: nat) returns (n: nat, timedOut: bool)
      requires buffer.Length == len
      modifies this`inbound, this`faults, this`timeouts, buffer
      ensures timeouts == old(timeouts) + if timedOut then 1 else 0
      ensures n <= len && n <= |old(inbound)|
      ensures buffer[..n] == old(inbound)[..n] && inbound == old(inbound)[n..]
      ensures faults == old(faults) ==> !timedOut && n == if |old(inbound)| < len then |old(inbound)| else len
      ensures faults >= old(faults) && (n == len && !timedOut ==> faults == old(faults))
    {
      n, timedOut := 0, false;
      while n < len
        invariant 0 <= n <= len && n <= |old(inbound)|
        invariant buffer[..n] == old(inbound)[..n] && inbound == old(inbound)[n..] && faults == old(faults)
        invariant timeouts == old(timeouts) && !timedOut
      {
        var r := RecvData(buffer, n, len - n);
        if r == -2 { return n, true; }
        if r <= 0 { return n, false; }
        assert old(inbound)[..n] + old(inbound)[n..][..r] == old(inbound)[..n + r];
        n := n + r;
      }
    }

    /** On success the frame has been appended whole; on failure a proper part of it. */
    method SendFrame(p: Payload) returns (ok: bool)
      modifies this`outbound, this`faults
      ensures ok ==> outbound == old(outbound) + Frame(p) && faults == old(faults)
      ensures !ok ==> faults > old(faults)
      ensures !ok ==> exists n :: 0 <= n < |Frame(p)| && outbound == old(outbound) + Frame(p)[..n]
    {
      var header := BigEndian(|p| % TWO_32, 4);
      ok := WriteBytes(header);
      if !ok {
        ghost var n :| 0 <= n < |header| && outbound == old(outbound) + header[..n];
        assert Frame(p)[..n] == header[..n];
        return;
      }
      ok := WriteBytes(p);
      if !ok {
        ghost var n :| 0 <= n < |p| && outbound == old(outbound) + header + p[..n];
        assert Frame(p)[..4 + n] == header + p[..n];
        assert outbound == old(outbound) + Frame(p)[..4 + n];
      }
    }

    /** A payload is returned only if it is the first frame of the stream; if no operation fails, it is returned
        exactly when the stream holds that frame whole; and a timeout is told from every other end. */
    method RecvFrame() returns (r: RecvResult)
      modifies this`inbound, this`faults, this`timeouts
      ensures timeouts == old(timeouts) + if r.TimedOut? then 1 else 0
      ensures faults >= old(faults)
      ensures r.Received? ==> FirstFrame(old(inbound)) == Some((r.payload, inbound)) && faults == old(faults)
      ensures faults == old(faults) ==>
        if FirstFrame(old(inbound)).Some? then r == Received(FirstFrame(old(inbound)).value.0) else r == Closed
    {
      var header := new byte[4];
      var n, timedOut := ReadExact(header, 4);
      if timedOut { return TimedOut; }
      if n < 4 { return Closed; }
      assert header[..] == header[..4];
      var len := FromBigEndian(header[..]);
      var payload := new byte[len];
      n, timedOut := ReadExact(payload, len);
      if timedOut { return TimedOut; }
      if n < len { return Closed; }
      assert payload[..] == payload[..len];
      assert old(inbound)[4..][..len] == old(inbound)[4..4 + len] && old(inbound)[4..][len..] == old(inbound)[4 + len..];
      return Received(payload[..]);
    }

    /** send_frame for one payload after another, until one fails. */
    method SendAll(ps: seq<Payload>) returns (ok: bool)
      modifies this`outbound, this`faults
      ensures ok ==> outbound == old(outbound) + Stream(ps) && faults == old(faults)
      ensures !ok ==> faults > old(faults)
      ensures !ok ==> exists n :: 0 <= n < |Stream(ps)| && outbound == old(outbound) + Stream(ps)[..n]
    {
      hide Frame, Stream;
      var i := 0;
      StreamOfNone();
      assert outbound == old(outbound) + Stream([]) && ps[..0] == [];
      while i < |ps|
        invariant i <= |ps| && outbound == old(outbound) + Stream(ps[..i]) && faults == old(faults)
      {
        StreamSplits(ps, i);
        ghost var before := outbound;
        ok := SendFrame(ps[i]);
        if !ok {
          ghost var n :| 0 <= n < |Frame(ps[i])| && outbound == before + Frame(ps[i])[..n];
          assert Stream(ps)[..|Stream(ps[..i])| + n] == Stream(ps[..i]) + Frame(ps[i])[..n];
          return;
        }
        assert outbound == old(outbound) + Stream(ps[..i + 1]);
        i := i + 1;
      }
      assert ps[..i] == ps;
      ok := true;
    }

    /** recv_frame until its first error.  Whatever comes of it is a beginning of what the stream holds, and all of
        it when no operation fails. */
    method ReceiveAll() returns (ps: seq<Payload>)
      modifies this`inbound, this`faults, this`timeouts
      ensures ps <= Frames(old(inbound)) && faults >= old(faults)
      ensures faults == old(faults) ==> ps == Frames(old(inbound))
    {
      hide FirstFrame;
      ps := [];
      ghost var all := inbound;
      var r := RecvFrame();
      FramesUnfold(all);
      while r.Received?
        invariant faults >= old(faults)
        invariant r.Received? ==> faults == old(faults)
        invariant r.Received? ==> Frames(all) == ps + [r.payload] + Frames(inbound)
        invariant !r.Received? ==> ps <= Frames(all) && (faults == old(faults) ==> ps == Frames(all))
        decreases r.Received?, |inbound|
      {
        ghost var rest := inbound;
        FramesUnfold(rest);
        ps := ps + [r.payload];
        r := RecvFrame();
      }
    }
  }

  /** A whole exchange: one side sends the payloads, the other reads what reached it before the cut.  Whatever
      fails and wherever the stream is cut, only payloads sent are read, in order; and when nothing fails, exactly
      those whose frames lie wholly before the cut. */
  method Exchange(ps: seq<Payload>, cut: nat) returns (got: seq<Payload>, ghost faults: nat)
    requires Sendable(ps)
    ensures got <= ps
    ensures faults == 0 && cut >= |Stream(ps)| ==> got == ps
    ensures faults == 0 && cut < |Stream(ps)| ==> WholeFrames(ps, cut, |got|)
  {
    hide Stream, Frames, Sendable;
    var sender := new Socket([]);
    var ok := sender.SendAll(ps);
    ghost var n := |sender.outbound|;
    assert sender.outbound <= Stream(ps);
    var arrived := if cut < |sender.outbound| then sender.outbound[..cut] else sender.outbound;
    assert arrived == Stream(ps)[..|arrived|];
    FramesOfCutStream(ps, |arrived|);
    ghost var k :| WholeFrames(ps, |arrived|, k) && Frames(Stream(ps)[..|arrived|]) == ps[..k];
    var receiver := new Socket(arrived);
    got := receiver.ReceiveAll();
    faults := sender.faults + receiver.faults;
    if arrived == Stream(ps) {
      FramesOfStream(ps);
    }
  }
}
