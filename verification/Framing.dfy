/** send_message and recv_message, the same in luncher/client/src/Client.cpp and
    luncher/server/src/Server.cpp: a size_t length, then that many bytes, over a stream whose
    send and recv may move any non-empty part of what is asked. */
module Framing {
  import opened Base

  const MAX_MSG_SIZE: nat := 4096
  const SIZE_T: nat := 0x1_0000_0000_0000_0000

  // ---------------------------------------------------------------- the wire format

  /** The `n` low bytes of `x`, least significant first. */
  function LittleEndian(x: nat, n: nat): (r: seq<Byte>)
    ensures |r| == n
  {
    if n == 0 then [] else [x % 0x100] + LittleEndian(x / 0x100, n - 1)
  }

  function FromLittleEndian(bs: seq<Byte>): (x: nat) {
    if bs == [] then 0 else bs[0] + 0x100 * FromLittleEndian(bs[1..])
  }

  function EncodeLength(len: nat): (r: seq<Byte>) { LittleEndian(len, 8) }
  function DecodeLength(bs: seq<Byte>): (len: nat) { FromLittleEndian(bs) }

  /** `total_bytes` is an int: what a size_t becomes when assigned to it. */
  function ToInt(len: nat): int {
    var low := len % 0x1_0000_0000;
    if low < 0x8000_0000 then low else low - 0x1_0000_0000
  }

  /** What send_message puts on the stream. For messages of 2 GiB and more the conversion to
      int cuts or drops the body. */
  function Frame(msg: seq<Byte>): (r: seq<Byte>) {
    EncodeLength(|msg|) + Body(msg)
  }

  function Body(msg: seq<Byte>): (r: seq<Byte>) {
    var total := ToInt(|msg|);
    if total <= 0 then [] else if total < |msg| then msg[..total] else msg
  }

  function Frames(msgs: seq<seq<Byte>>): (r: seq<Byte>) {
    if msgs == [] then [] else Frame(msgs[0]) + Frames(msgs[1..])
  }

  predicate Acceptable(msgs: seq<seq<Byte>>) {
    forall i :: 0 <= i < |msgs| ==> |msgs[i]| <= MAX_MSG_SIZE
  }

  datatype Parsed =
    | Message(msg: seq<Byte>, rest: seq<Byte>)
    | Oversize(rest: seq<Byte>)   // the length is taken, the body is left unread
    | Short                       // the stream ends inside the frame

  /** What recv_message makes of a stream. */
  function Parse(s: seq<Byte>): (p: Parsed) {
    if |s| < 8 then Short
    else
      var len, body := DecodeLength(s[..8]), s[8..];
      if len > MAX_MSG_SIZE then Oversize(body)
      else if |body| < len then Short
      else Message(body[..len], body[len..])
  }

  datatype ParsedMany = Messages(msgs: seq<seq<Byte>>, rest: seq<Byte>) | Failed

  /** `n` successive calls. */
  function ParseMany(s: seq<Byte>, n: nat): (p: ParsedMany) {
    if n == 0 then Messages([], s)
    else match Parse(s)
      case Message(msg, rest) =>
        (match ParseMany(rest, n - 1)
         case Messages(msgs, end) => Messages([msg] + msgs, end)
         case Failed => Failed)
      case _ => Failed
  }

  lemma {:induction false} LengthRoundTrip(x: nat, n: nat)
    requires x < Pow256(n)
    ensures FromLittleEndian(LittleEndian(x, n)) == x
    decreases n
  {
    if n > 0 {
      assert x / 0x100 < Pow256(n - 1);
      LengthRoundTrip(x / 0x100, n - 1);
      assert LittleEndian(x, n)[1..] == LittleEndian(x / 0x100, n - 1);
    }
  }

  lemma {:induction false} BytesRoundTrip(bs: seq<Byte>)
    ensures FromLittleEndian(bs) < Pow256(|bs|)
    ensures LittleEndian(FromLittleEndian(bs), |bs|) == bs
  {
    if bs != [] {
      BytesRoundTrip(bs[1..]);
      var x := FromLittleEndian(bs);
      assert x % 0x100 == bs[0] && x / 0x100 == FromLittleEndian(bs[1..]);
      assert bs == [bs[0]] + bs[1..];
    }
  }

  function Pow256(n: nat): (r: nat)
    ensures r > 0
  {
    if n == 0 then 1 else 0x100 * Pow256(n - 1)
  }

  lemma PowEight()
    ensures Pow256(8) == SIZE_T
  {
  }

  /** The length prefix and its decoding undo each other, both ways. */
  lemma PrefixInverse(len: nat, bs: seq<Byte>)
    requires len < SIZE_T && |bs| == 8
    ensures DecodeLength(EncodeLength(len)) == len
    ensures EncodeLength(DecodeLength(bs)) == bs && DecodeLength(bs) < SIZE_T
  {
    PowEight();
    LengthRoundTrip(len, 8);
    BytesRoundTrip(bs);
  }

  /** The length on the wire: eight bytes, the least significant first. */
  lemma LengthBytes(len: nat)
    ensures EncodeLength(len)
         == [len % 0x100, len / 0x100 % 0x100, len / 0x100 / 0x100 % 0x100, len / 0x100 / 0x100 / 0x100 % 0x100,
             len / 0x100 / 0x100 / 0x100 / 0x100 % 0x100, len / 0x100 / 0x100 / 0x100 / 0x100 / 0x100 % 0x100,
             len / 0x100 / 0x100 / 0x100 / 0x100 / 0x100 / 0x100 % 0x100,
             len / 0x100 / 0x100 / 0x100 / 0x100 / 0x100 / 0x100 / 0x100 % 0x100]
  {
    LowBytes(len, 8);
    LowBytes(len / 0x100, 7);
    LowBytes(len / 0x100 / 0x100, 6);
    LowBytes(len / 0x100 / 0x100 / 0x100, 5);
    LowBytes(len / 0x100 / 0x100 / 0x100 / 0x100, 4);
    LowBytes(len / 0x100 / 0x100 / 0x100 / 0x100 / 0x100, 3);
    LowBytes(len / 0x100 / 0x100 / 0x100 / 0x100 / 0x100 / 0x100, 2);
    LowBytes(len / 0x100 / 0x100 / 0x100 / 0x100 / 0x100 / 0x100 / 0x100, 1);
  }

  lemma LowBytes(x: nat, n: nat)
    requires n > 0
    ensures LittleEndian(x, n) == [x % 0x100] + LittleEndian(x / 0x100, n - 1)
    ensures LittleEndian(x / 0x100, 0) == []
  {
  }

  /** A frame is the length and the message, of which an int's worth is sent: below 2 GiB all
      of it, beyond that the length modulo 4 GiB or, if that is negative as an int, nothing. */
  lemma FrameExactly(msg: seq<Byte>)
    ensures var low := |msg| % 0x1_0000_0000;
      Frame(msg) == EncodeLength(|msg|) + (if low < 0x8000_0000 then msg[..low] else [])
    ensures |msg| < 0x8000_0000 ==> Frame(msg) == EncodeLength(|msg|) + msg
  {
  }

  /** What is refused: fewer than eight bytes, a length over 4096, a body that is not complete. */
  lemma ParseExactly(s: seq<Byte>)
    ensures Parse(s).Oversize? <==> |s| >= 8 && DecodeLength(s[..8]) > 4096
    ensures Parse(s).Oversize? ==> Parse(s).rest == s[8..]
    ensures Parse(s).Short? <==> |s| < 8 || (DecodeLength(s[..8]) <= 4096 && |s| < 8 + DecodeLength(s[..8]))
    ensures Parse(s).Message? ==>
      var n := DecodeLength(s[..8]);
      Parse(s).msg == s[8..8 + n] && Parse(s).rest == s[8 + n..]
  {
  }

  lemma ParsePrefixed(prefix: seq<Byte>, msg: seq<Byte>, rest: seq<Byte>)
    requires |prefix| == 8 && DecodeLength(prefix) == |msg| <= MAX_MSG_SIZE
    ensures Parse(prefix + (msg + rest)) == Message(msg, rest)
  {
  }

  /** A frame followed by anything is parsed back, and nothing of what follows is touched. */
  lemma FrameRoundTrip(msg: seq<Byte>, rest: seq<Byte>)
    requires |msg| <= MAX_MSG_SIZE
    ensures Parse(Frame(msg) + rest) == Message(msg, rest)
  {
    var prefix := EncodeLength(|msg|);
    PrefixInverse(|msg|, prefix);
    FrameOfShort(msg);
    Associative(prefix, msg, rest);
    ParsePrefixed(prefix, msg, rest);
  }

  /** Conversely, whatever is accepted was a frame. */
  lemma ParsedWasFrame(s: seq<Byte>)
    requires Parse(s).Message?
    ensures s == Frame(Parse(s).msg) + Parse(s).rest
  {
    var prefix, msg, rest := s[..8], Parse(s).msg, Parse(s).rest;
    PrefixInverse(0, prefix);
    FrameOfShort(msg);
    ThreePieces(s, 8, |msg|);
  }

  lemma ThreePieces<T>(s: seq<T>, m: nat, n: nat)
    requires m + n <= |s|
    ensures s == s[..m] + s[m..][..n] + s[m..][n..]
  {
  }

  lemma FrameOfShort(msg: seq<Byte>)
    requires |msg| <= MAX_MSG_SIZE
    ensures Frame(msg) == EncodeLength(|msg|) + msg
  {
  }

  lemma FirstFrame(msgs: seq<seq<Byte>>, rest: seq<Byte>)
    requires msgs != [] && |msgs[0]| <= MAX_MSG_SIZE
    ensures Parse(Frames(msgs) + rest) == Message(msgs[0], Frames(msgs[1..]) + rest)
  {
    Associative(Frame(msgs[0]), Frames(msgs[1..]), rest);
    FrameRoundTrip(msgs[0], Frames(msgs[1..]) + rest);
  }

  /** Any list of messages of at most 4096 bytes is received as sent, up to the frame
      boundary. */
  lemma {:induction false} FramesRoundTrip(msgs: seq<seq<Byte>>, rest: seq<Byte>)
    requires Acceptable(msgs)
    ensures ParseMany(Frames(msgs) + rest, |msgs|) == Messages(msgs, rest)
  {
    if msgs == [] {
      Empty(rest);
    } else {
      FramesRoundTrip(msgs[1..], rest);
      OneMore(msgs, rest);
    }
  }

  lemma OneMore(msgs: seq<seq<Byte>>, rest: seq<Byte>)
    requires msgs != [] && |msgs[0]| <= MAX_MSG_SIZE
    requires ParseMany(Frames(msgs[1..]) + rest, |msgs| - 1) == Messages(msgs[1..], rest)
    ensures ParseMany(Frames(msgs) + rest, |msgs|) == Messages(msgs, rest)
  {
    FirstFrame(msgs, rest);
    ParseManyStep(Frames(msgs) + rest, |msgs|, msgs[0], Frames(msgs[1..]) + rest, msgs[1..], rest, msgs);
  }

  lemma Empty(rest: seq<Byte>)
    ensures Frames([]) + rest == rest
  {
  }

  lemma ParseManyStep(s: seq<Byte>, n: nat, msg: seq<Byte>, later: seq<Byte>,
                      tail: seq<seq<Byte>>, rest: seq<Byte>, all: seq<seq<Byte>>)
    requires n > 0 && Parse(s) == Message(msg, later) && ParseMany(later, n - 1) == Messages(tail, rest)
    requires all != [] && all[0] == msg && all[1..] == tail
    ensures ParseMany(s, n) == Messages(all, rest)
  {
    assert all == [msg] + tail;
  }

  lemma {:induction false} FramesAppend(msgs: seq<seq<Byte>>, msg: seq<Byte>)
    ensures Frames(msgs + [msg]) == Frames(msgs) + Frame(msg)
  {
    if msgs == [] {
      assert [] + [msg] == [msg] && Frames([msg]) == Frame(msg) + Frames([]);
    } else {
      FramesAppend(msgs[1..], msg);
      assert (msgs + [msg])[1..] == msgs[1..] + [msg];
      assert Frame(msgs[0]) + (Frames(msgs[1..]) + Frame(msg)) == Frame(msgs[0]) + Frames(msgs[1..]) + Frame(msg);
    }
  }

  // ---------------------------------------------------------------- while messages are under way

  /** Part of a frame is not taken for a message. */
  lemma PartialFrame(msg: seq<Byte>, got: seq<Byte>, later: seq<Byte>)
    requires |msg| <= MAX_MSG_SIZE && Frame(msg) == got + later && later != []
    ensures Parse(got).Short?
  {
    FrameOfShort(msg);
    PrefixInverse(|msg|, EncodeLength(|msg|));
    if |got| >= 8 {
      assert got[..8] == (got + later)[..8] == EncodeLength(|msg|);
    }
  }

  lemma CutAfter<T>(a: seq<T>, b: seq<T>, got: seq<T>, later: seq<T>)
    requires a + b == got + later && |got| >= |a|
    ensures got == a + got[|a|..] && b == got[|a|..] + later
  {
    assert got == (a + b)[..|got|];
    assert b == (got + later)[|a|..];
  }

  lemma CutInside<T>(a: seq<T>, b: seq<T>, got: seq<T>, later: seq<T>)
    requires a + b == got + later && |got| < |a|
    ensures |later| >= |a| - |got| && a == got + later[..|a| - |got|]
  {
    assert a == (got + later)[..|a|];
  }

  /** Among the bytes `got` exactly the frames of msgs[..k] are complete, for each k. */
  ghost predicate Yields(msgs: seq<seq<Byte>>, got: seq<Byte>, k: nat) {
    && (ParseMany(got, k).Messages? <==> k <= |msgs| && |Frames(msgs[..k])| <= |got|)
    && (ParseMany(got, k).Messages? ==> ParseMany(got, k).msgs == msgs[..k])
  }

  lemma YieldsNothing(msgs: seq<seq<Byte>>, got: seq<Byte>, k: nat)
    requires k > 0 && Parse(got).Short? && (k <= |msgs| ==> |got| < |Frame(msgs[0])|)
    ensures Yields(msgs, got, k)
  {
    if k <= |msgs| {
      assert msgs[..k][0] == msgs[0];
    }
  }

  lemma YieldsMore(msgs: seq<seq<Byte>>, got: seq<Byte>, rest: seq<Byte>, k: nat)
    requires msgs != [] && k > 0 && Parse(got) == Message(msgs[0], rest) && |got| == |Frame(msgs[0])| + |rest|
    requires Yields(msgs[1..], rest, k - 1)
    ensures Yields(msgs, got, k)
  {
    if k <= |msgs| {
      assert msgs[..k][1..] == msgs[1..][..k - 1];
      assert msgs[..k] == [msgs[0]] + msgs[1..][..k - 1];
    }
  }

  lemma InFirstFrame(msgs: seq<seq<Byte>>, got: seq<Byte>, later: seq<Byte>)
    requires msgs != [] && |msgs[0]| <= MAX_MSG_SIZE && Frames(msgs) == got + later && |got| < |Frame(msgs[0])|
    ensures Parse(got).Short?
  {
    CutInside(Frame(msgs[0]), Frames(msgs[1..]), got, later);
    PartialFrame(msgs[0], got, later[..|Frame(msgs[0])| - |got|]);
  }

  lemma AfterFirstFrame(msgs: seq<seq<Byte>>, got: seq<Byte>, later: seq<Byte>)
    requires msgs != [] && |msgs[0]| <= MAX_MSG_SIZE && Frames(msgs) == got + later && |got| >= |Frame(msgs[0])|
    ensures var rest := got[|Frame(msgs[0])|..];
      Parse(got) == Message(msgs[0], rest) && Frames(msgs[1..]) == rest + later
  {
    CutAfter(Frame(msgs[0]), Frames(msgs[1..]), got, later);
    FrameRoundTrip(msgs[0], got[|Frame(msgs[0])|..]);
  }

  /** At any moment, however sending and receiving interleave: of the bytes received so far
      exactly the complete frames give messages, and these are the first ones sent. */
  lemma {:induction false} PrefixParses(msgs: seq<seq<Byte>>, got: seq<Byte>, later: seq<Byte>, k: nat)
    requires Frames(msgs) == got + later && Acceptable(msgs)
    ensures Yields(msgs, got, k)
  {
    if k == 0 {
      YieldsAtStart(msgs, got);
    } else if msgs == [] {
      YieldsNothing(msgs, got, k);
    } else {
      var complete, rest := FirstOfMany(msgs, got, later, k);
      if complete {
        PrefixParses(msgs[1..], rest, later, k - 1);
      }
    }
  }

  lemma FirstOfMany(msgs: seq<seq<Byte>>, got: seq<Byte>, later: seq<Byte>, k: nat)
    returns (complete: bool, rest: seq<Byte>)
    requires Frames(msgs) == got + later && Acceptable(msgs) && msgs != [] && k > 0
    ensures !complete ==> Yields(msgs, got, k)
    ensures complete ==>
      && Frames(msgs[1..]) == rest + later
      && (Yields(msgs[1..], rest, k - 1) ==> Yields(msgs, got, k))
  {
    complete, rest := |got| >= |Frame(msgs[0])|, [];
    if complete {
      rest := got[|Frame(msgs[0])|..];
      AfterFirstFrame(msgs, got, later);
      if Yields(msgs[1..], rest, k - 1) {
        YieldsMore(msgs, got, rest, k);
      }
    } else {
      YieldsPart(msgs, got, later, k);
    }
  }

  lemma YieldsAtStart(msgs: seq<seq<Byte>>, got: seq<Byte>)
    ensures Yields(msgs, got, 0)
  {
    assert msgs[..0] == [];
  }

  lemma YieldsPart(msgs: seq<seq<Byte>>, got: seq<Byte>, later: seq<Byte>, k: nat)
    requires Frames(msgs) == got + later && Acceptable(msgs) && msgs != [] && k > 0 && |got| < |Frame(msgs[0])|
    ensures Yields(msgs, got, k)
  {
    InFirstFrame(msgs, got, later);
    YieldsNothing(msgs, got, k);
  }

  /** A buffer of this size can take the next message, if it is one that will be accepted. */
  predicate FitsIn(s: seq<Byte>, capacity: nat) {
    |s| >= 8 && DecodeLength(s[..8]) <= MAX_MSG_SIZE ==> DecodeLength(s[..8]) <= capacity
  }

  lemma LargestFits(s: seq<Byte>)
    ensures FitsIn(s, MAX_MSG_SIZE)
  {
  }

  // ---------------------------------------------------------------- the calls

  /** One direction of a connection: the bytes sent and not yet received. */
  class Stream {
    var data: seq<Byte>
    /** Set when a send or recv reported an error or the end of the stream. */
    var broken: bool

    constructor ()
      ensures data == [] && !broken
    {
      data, broken := [], false;
    }

    method Send(bytes: seq<Byte>) returns (ret: int)
      requires bytes != []
      modifies this
      ensures ret < 0 ==> broken && data == old(data)
      ensures ret >= 0 ==>
        0 < ret <= |bytes| && broken == old(broken) && data == old(data) + bytes[..ret]
    {
      var n: int := *;
      if 0 < n <= |bytes| {
        data := data + bytes[..n];
        ret := n;
      } else {
        broken := true;
        ret := -1;
      }
    }

    method Recv(max: nat) returns (ret: int, chunk: seq<Byte>)
      requires max > 0
      modifies this
      ensures ret <= 0 ==> broken && data == old(data) && chunk == []
      ensures ret > 0 ==>
        ret == |chunk| <= max && broken == old(broken) && chunk + data == old(data)
    {
      var n: int := *;
      if 0 < n <= max && n <= |data| {
        chunk := data[..n];
        data := data[n..];
        ret := n;
      } else {
        broken := true;
        ret, chunk := 0, [];
      }
    }

    /** False if the process exits because send failed. */
    method SendMessage(buffer: array<Byte>, len: nat) returns (sent: bool)
      requires len <= buffer.Length && len < SIZE_T
      modifies this
      ensures sent ==> data == old(data) + Frame(buffer[..len]) && broken == old(broken)
      ensures !sent ==> broken && old(data) <= data <= old(data) + Frame(buffer[..len])
    {
      var prefix := EncodeLength(len);
      sent := SendAll(prefix, 8);
      if !sent {
        return;
      }
      var totalBytes := ToInt(len);
      if totalBytes <= 0 {
        return;
      }
      ToIntBelow(len);
      assert Body(buffer[..len]) == buffer[..totalBytes];
      sent := SendAll(buffer[..totalBytes], totalBytes);
      Associative(old(data), prefix, buffer[..totalBytes]);
    }

    /** while (total_bytes > bytes_sent) send(buff + bytes_sent, total_bytes - bytes_sent) */
    method SendAll(buff: seq<Byte>, totalBytes: nat) returns (sent: bool)
      requires totalBytes == |buff|
      modifies this
      ensures sent ==> data == old(data) + buff && broken == old(broken)
      ensures !sent ==> broken && old(data) <= data <= old(data) + buff
    {
      var bytesSent := 0;
      while totalBytes > bytesSent
        invariant bytesSent <= totalBytes
        invariant data == old(data) + buff[..bytesSent] && broken == old(broken)
      {
        var ret := Send(buff[bytesSent..]);
        if ret < 0 {
          assert buff == buff[..bytesSent] + buff[bytesSent..];
          return false;
        }
        assert buff[..bytesSent] + buff[bytesSent..][..ret] == buff[..bytesSent + ret];
        bytesSent := bytesSent + ret;
      }
      sent := true;
    }

    /** -1 on failure. The caller's buffer must hold the message that comes, if it is one that
        will be accepted. */
    method RecvMessage(buffer: array<Byte>) returns (ret: int)
      requires FitsIn(data, buffer.Length)
      modifies this, buffer
      ensures Parse(old(data)).Message? && !broken ==>
        && ret == |Parse(old(data)).msg| && buffer[..ret] == Parse(old(data)).msg
        && buffer[ret..] == old(buffer[ret..])
        && data == Parse(old(data)).rest
      ensures Parse(old(data)).Oversize? && !broken ==>
        ret == -1 && data == Parse(old(data)).rest && buffer[..] == old(buffer[..])
      ensures Parse(old(data)).Short? ==> ret == -1 && broken
      ensures ret >= 0 ==> Parse(old(data)).Message? && broken == old(broken)
    {
      ghost var s := data;
      var lengthBytes := new Byte[8];
      var ok := RecvAll(lengthBytes, 8);
      if !ok {
        return -1;
      }
      assert s == lengthBytes[..8] + data;
      assert lengthBytes[..] == lengthBytes[..8] == s[..8] && data == s[8..];
      var len := DecodeLength(lengthBytes[..]);
      if len > MAX_MSG_SIZE {
        return -1;
      }
      ok := RecvAll(buffer, len);
      if !ok {
        return -1;
      }
      assert s[8..] == buffer[..len] + data;
      ret := len;
    }

    /** while (bytes_received < total_bytes) recv(buff + bytes_received, ...) */
    method RecvAll(buff: array<Byte>, totalBytes: nat) returns (ok: bool)
      requires totalBytes <= buff.Length
      modifies this, buff
      ensures ok ==> broken == old(broken) && old(data) == buff[..totalBytes] + data
      ensures ok ==> buff[totalBytes..] == old(buff[totalBytes..])
      ensures !ok ==> broken
      ensures |old(data)| < totalBytes ==> !ok
    {
      var bytesReceived := 0;
      while bytesReceived < totalBytes
        invariant bytesReceived <= totalBytes
        invariant old(data) == buff[..bytesReceived] + data && broken == old(broken)
        invariant buff[totalBytes..] == old(buff[totalBytes..])
      {
        var ret, chunk := Recv(totalBytes - bytesReceived);
        if ret <= 0 {
          return false;
        }
        ghost var before := buff[..bytesReceived];
        forall i | 0 <= i < |chunk| {
          buff[bytesReceived + i] := chunk[i];
        }
        assert buff[..bytesReceived + ret] == before + chunk;
        bytesReceived := bytesReceived + ret;
      }
      ok := true;
    }
  }

  lemma ToIntBelow(len: nat)
    requires ToInt(len) > 0
    ensures ToInt(len) <= len
  {
  }

  ghost function Remaining(msgs: seq<seq<Byte>>, i: nat, rest: seq<Byte>): seq<Byte>
    requires i <= |msgs|
  {
    Frames(msgs[i..]) + rest
  }

  lemma NextFrame(msgs: seq<seq<Byte>>, i: nat, rest: seq<Byte>)
    requires i < |msgs| && |msgs[i]| <= MAX_MSG_SIZE
    ensures Parse(Remaining(msgs, i, rest)) == Message(msgs[i], Remaining(msgs, i + 1, rest))
    ensures msgs[..i] + [msgs[i]] == msgs[..i + 1]
  {
    assert msgs[i..][1..] == msgs[i + 1..];
    FirstFrame(msgs[i..], rest);
  }

  lemma RemainingEnds(msgs: seq<seq<Byte>>, rest: seq<Byte>)
    ensures Remaining(msgs, 0, rest) == Frames(msgs) + rest
    ensures Remaining(msgs, |msgs|, rest) == rest
    ensures msgs[..0] == [] && msgs[..|msgs|] == msgs
  {
    assert msgs[0..] == msgs;
    assert [] + rest == rest;
  }

  /** The receiving loop of client_loop, for the first `n` messages: whatever the pieces in
      which `msgs` arrives, it reads exactly those messages in order. */
  method ReceiveMessages(stream: Stream, n: nat, ghost msgs: seq<seq<Byte>>, ghost rest: seq<Byte>)
    returns (received: seq<seq<Byte>>, ok: bool)
    requires !stream.broken && |msgs| == n && stream.data == Frames(msgs) + rest
    requires Acceptable(msgs)
    modifies stream
    ensures ok <==> !stream.broken
    ensures ok ==> received == msgs && stream.data == rest
  {
    received, ok := [], true;
    RemainingEnds(msgs, rest);
    var i := 0;
    while i < n
      invariant 0 <= i <= n && !stream.broken && ok
      invariant received == msgs[..i]
      invariant stream.data == Remaining(msgs, i, rest)
    {
      NextFrame(msgs, i, rest);
      var message;
      message, ok := ReceiveOne(stream, msgs[i], Remaining(msgs, i + 1, rest));
      if !ok {
        return;
      }
      received := received + [message];
      i := i + 1;
    }
  }

  method ReceiveOne(stream: Stream, ghost msg: seq<Byte>, ghost later: seq<Byte>) returns (message: seq<Byte>, ok: bool)
    requires !stream.broken && Parse(stream.data) == Message(msg, later)
    modifies stream
    ensures ok <==> !stream.broken
    ensures ok ==> message == msg && stream.data == later
  {
    var buffer := new Byte[MAX_MSG_SIZE];
    LargestFits(stream.data);
    var ret := stream.RecvMessage(buffer);
    if stream.broken {
      return [], false;
    }
    message, ok := buffer[..ret], true;
  }

  /** One end sends these messages one after the other, the other receives as many. */
  method Exchange(stream: Stream, msgs: seq<seq<Byte>>) returns (received: seq<seq<Byte>>, ok: bool)
    requires !stream.broken && stream.data == [] && Acceptable(msgs)
    modifies stream
    ensures ok <==> !stream.broken
    ensures ok ==> received == msgs && stream.data == []
  {
    ok := SendMessages(stream, msgs);
    received := [];
    if ok {
      Associative(Frames(msgs), [], []);
      received, ok := ReceiveMessages(stream, |msgs|, msgs, []);
    }
  }

  method SendMessages(stream: Stream, msgs: seq<seq<Byte>>) returns (ok: bool)
    requires !stream.broken && stream.data == [] && Acceptable(msgs)
    modifies stream
    ensures ok <==> !stream.broken
    ensures ok ==> stream.data == Frames(msgs)
  {
    for i := 0 to |msgs|
      invariant !stream.broken && stream.data == Frames(msgs[..i])
    {
      ok := SendOne(stream, msgs[i]);
      if !ok {
        return;
      }
      FramesAppend(msgs[..i], msgs[i]);
      assert msgs[..i + 1] == msgs[..i] + [msgs[i]];
    }
    assert msgs[..|msgs|] == msgs;
    ok := true;
  }

  method SendOne(stream: Stream, msg: seq<Byte>) returns (ok: bool)
    requires !stream.broken && |msg| <= MAX_MSG_SIZE
    modifies stream
    ensures ok <==> !stream.broken
    ensures ok ==> stream.data == old(stream.data) + Frame(msg)
  {
    var buffer := new Byte[|msg|](j requires 0 <= j < |msg| => msg[j]);
    assert buffer[..|msg|] == msg;
    ok := stream.SendMessage(buffer, |msg|);
  }
}
