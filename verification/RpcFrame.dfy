/**
 The framing of RPC messages: a big-endian version word, a big-endian body length, the body; and the
 slicing of trailing bytes into a message's buffers.

 A reader hands out at most `limit` bytes of one websocket message: the whole message counts, header
 included, which is how the websocket library documents SetReadLimit.
 */
module RpcFrame {
  import opened Wrappers

  type byte = x: int | 0 <= x < 256
  type uint32 = x: int | 0 <= x < 0x1_0000_0000

  const VERSION: uint32 := 0xba000000
  const MAX_MESSAGE_SIZE: uint32 := 64 * 1024 * 1024
  const HEADER := 8

  // ---------------------------------------------------------------- encoding

  function Put(v: uint32): (r: seq<byte>)
    ensures |r| == 4
  {
    [v / 0x1000000, v / 0x10000 % 256, v / 0x100 % 256, v % 256]
  }

  function Get(b: seq<byte>): uint32
    requires |b| == 4
  {
    (b[0] as int) * 0x1000000 + (b[1] as int) * 0x10000 + (b[2] as int) * 0x100 + b[3] as int
  }

  lemma PutGet(v: uint32)
    ensures Get(Put(v)) == v
  {
    var a, b, c := v / 0x100, v / 0x10000, v / 0x1000000;
    assert b == a / 0x100 && c == b / 0x100;
  }

  /** What SendMessage writes for a body: the length word is truncated to 32 bits. */
  function WriteFrame(body: seq<byte>): seq<byte> {
    Put(VERSION) + Put(|body| % 0x1_0000_0000) + body
  }

  // ---------------------------------------------------------------- decoding

  datatype ReadResult = Body(bytes: seq<byte>) | ReadError | VersionMismatch(version: uint32) | TooBig(size: uint32)

  /** The bytes of a message that its reader can deliver. */
  function Readable(message: seq<byte>, limit: nat): seq<byte> {
    if |message| <= limit then message else message[..limit]
  }

  /** What reading one message means, given the bytes the reader can deliver. */
  function Decode(bytes: seq<byte>): ReadResult {
    if |bytes| < HEADER then ReadError
    else
      var version, size := Get(bytes[..4]), Get(bytes[4..8]);
      if version != VERSION then VersionMismatch(version)
      else if size > MAX_MESSAGE_SIZE then TooBig(size)
      else if |bytes| < HEADER + size then ReadError
      else Body(bytes[HEADER..HEADER + size])
  }

  class Reader {
    const message: seq<byte>
    const limit: nat
    var pos: nat

    ghost predicate Valid()
      reads this
    {
      pos <= |Readable(message, limit)|
    }

    constructor (message: seq<byte>, limit: nat)
      ensures Valid() && pos == 0 && this.message == message && this.limit == limit
    {
      this.message, this.limit, this.pos := message, limit, 0;
    }

    /** io.ReadFull: exactly `n` bytes, or an error with everything readable consumed. */
    method ReadFull(n: nat) returns (ok: bool, bytes: seq<byte>)
      requires Valid()
      modifies this
      ensures Valid()
      ensures ok == (old(pos) + n <= |Readable(message, limit)|)
      ensures ok ==> bytes == Readable(message, limit)[old(pos)..old(pos) + n] && pos == old(pos) + n
      ensures !ok ==> pos == |Readable(message, limit)|
    {
      var available := Readable(message, limit);
      ok := pos + n <= |available|;
      bytes := if ok then available[pos..pos + n] else available[pos..];
      pos := if ok then pos + n else |available|;
    }

    /** ReadMessage, up to the decoding of the body. */
    method ReadBody() returns (r: ReadResult)
      requires Valid() && pos == 0
      modifies this
      ensures Valid() && r == Decode(Readable(message, limit))
      ensures r.VersionMismatch? || r.TooBig? ==> pos == HEADER
      ensures r.Body? ==> pos == HEADER + |r.bytes|
    {
      var ok, bytes := ReadFull(4);
      if !ok { return ReadError; }
      var version := Get(bytes);
      ok, bytes := ReadFull(4);
      if !ok { return ReadError; }
      var size := Get(bytes);
      if version != VERSION { return VersionMismatch(version); }
      if size > MAX_MESSAGE_SIZE { return TooBig(size); }
      ok, bytes := ReadFull(size);
      if !ok { return ReadError; }
      return Body(bytes);
    }

    /** io.ReadAll: the rest of the message, or an error when the limit cuts it off. */
    method ReadAll() returns (ok: bool, bytes: seq<byte>)
      requires Valid()
      modifies this
      ensures Valid() && pos == |Readable(message, limit)|
      ensures ok == (|message| <= limit) && (ok ==> bytes == message[old(pos)..])
    {
      var available := Readable(message, limit);
      ok, bytes := |message| <= limit, available[pos..];
      pos := |available|;
    }
  }

  // ---------------------------------------------------------------- round trip

  lemma FrameHeader(body: seq<byte>)
    ensures var f := WriteFrame(body);
            |f| == HEADER + |body| && Get(f[..4]) == VERSION && Get(f[4..8]) == |body| % 0x1_0000_0000 && f[8..] == body
  {
    var f := WriteFrame(body);
    assert f[..4] == Put(VERSION) && f[4..8] == Put(|body| % 0x1_0000_0000);
    PutGet(VERSION);
    PutGet(|body| % 0x1_0000_0000);
  }

  /** Reading back what SendMessage wrote returns the body exactly when body and header fit the two limits. */
  lemma FrameRoundTrip(body: seq<byte>, limit: nat)
    ensures Decode(Readable(WriteFrame(body), limit)) == Body(body) <==>
            |body| <= MAX_MESSAGE_SIZE && HEADER + |body| <= limit
  {
    var f := WriteFrame(body);
    var bytes := Readable(f, limit);
    FrameHeader(body);
    if |bytes| >= HEADER {
      assert bytes[..4] == f[..4] && bytes[4..8] == f[4..8];
      if |body| <= MAX_MESSAGE_SIZE && HEADER + |body| <= limit {
        assert bytes == f && f[HEADER..HEADER + |body|] == body;
      } else if |body| <= MAX_MESSAGE_SIZE {
        assert |bytes| < HEADER + |body|;
      } else if |body| >= 0x1_0000_0000 {
        assert |body| % 0x1_0000_0000 != |body|;
      }
    }
  }

  /**
   With the limit ReadMessage itself allows for a body, whether the reader counts it inclusively or
   grants one byte more, a body of exactly that size does not survive: the header is counted too.
   */
  lemma LargestBodyLost(body: seq<byte>)
    requires |body| == MAX_MESSAGE_SIZE
    ensures Decode(Readable(WriteFrame(body), MAX_MESSAGE_SIZE)) != Body(body)
    ensures Decode(Readable(WriteFrame(body), MAX_MESSAGE_SIZE + 1)) != Body(body)
  {
    FrameRoundTrip(body, MAX_MESSAGE_SIZE);
    FrameRoundTrip(body, MAX_MESSAGE_SIZE + 1);
  }

  /** A wrong version or an oversized length is refused on the header alone, whatever follows it. */
  lemma RefusedOnHeader(message: seq<byte>, other: seq<byte>, limit: nat)
    requires HEADER <= limit && HEADER <= |message| && HEADER <= |other| && message[..HEADER] == other[..HEADER]
    requires Get(message[..4]) != VERSION || Get(message[4..8]) > MAX_MESSAGE_SIZE
    ensures var r := Decode(Readable(message, limit));
            && r == (if Get(message[..4]) != VERSION then VersionMismatch(Get(message[..4]))
                     else TooBig(Get(message[4..8])))
            && Decode(Readable(other, limit)) == r
  {
    ReadableHeader(message, limit);
    ReadableHeader(other, limit);
    assert message[..4] == message[..HEADER][..4] && other[..4] == other[..HEADER][..4];
    assert message[4..8] == message[..HEADER][4..8] && other[4..8] == other[..HEADER][4..8];
  }

  lemma ReadableHeader(message: seq<byte>, limit: nat)
    requires HEADER <= limit && HEADER <= |message|
    ensures var r := Readable(message, limit); |r| >= HEADER && r[..4] == message[..4] && r[4..8] == message[4..8]
  {
  }

  // ---------------------------------------------------------------- buffers

  datatype Buffer = Buffer(name: string, length: int, data: seq<byte>)

  function Total(lengths: seq<int>): int {
    if lengths == [] then 0 else lengths[0] + Total(lengths[1..])
  }

  function Concat(parts: seq<seq<byte>>): seq<byte> {
    if parts == [] then [] else parts[0] + Concat(parts[1..])
  }

  /** The lengths are non-negative and fit in `capacity` bytes. */
  predicate Fits(lengths: seq<int>, capacity: nat) {
    (forall i :: 0 <= i < |lengths| ==> lengths[i] >= 0) && Total(lengths) <= capacity
  }

  /** Consecutive pieces of the given lengths; None where a slice would leave the bytes. */
  function Cut(lengths: seq<int>, bytes: seq<byte>): Option<seq<seq<byte>>> {
    if lengths == [] then Some([])
    else if !(0 <= lengths[0] <= |bytes|) then None
    else
      match Cut(lengths[1..], bytes[lengths[0]..])
      case None => None
      case Some(rest) => Some([bytes[..lengths[0]]] + rest)
  }

  lemma {:induction false} TotalNonNegative(lengths: seq<int>)
    requires forall i :: 0 <= i < |lengths| ==> lengths[i] >= 0
    ensures Total(lengths) >= 0
  {
    if lengths != [] { TotalNonNegative(lengths[1..]); }
  }

  /** The cut succeeds exactly when the lengths are non-negative and fit. */
  lemma {:induction false} CutIffFits(lengths: seq<int>, bytes: seq<byte>)
    ensures Cut(lengths, bytes).Some? <==> Fits(lengths, |bytes|)
    decreases lengths
  {
    if lengths == [] {
    } else {
      var n, rest := lengths[0], lengths[1..];
      assert forall i :: 0 < i < |lengths| ==> lengths[i] == rest[i - 1];
      if n >= 0 && (forall i :: 0 <= i < |rest| ==> rest[i] >= 0) { TotalNonNegative(rest); }
      if 0 <= n <= |bytes| { CutIffFits(rest, bytes[n..]); }
    }
  }

  /** The pieces have the stated lengths, and their concatenation is the prefix of the total length. */
  lemma {:induction false} CutConcat(lengths: seq<int>, bytes: seq<byte>)
    requires Cut(lengths, bytes).Some?
    ensures var parts := Cut(lengths, bytes).value;
            && |parts| == |lengths| && (forall i :: 0 <= i < |parts| ==> |parts[i]| == lengths[i])
            && 0 <= Total(lengths) <= |bytes| && Concat(parts) == bytes[..Total(lengths)]
    decreases lengths
  {
    if lengths != [] {
      var n, rest := lengths[0], bytes[lengths[0]..];
      CutConcat(lengths[1..], rest);
      var parts, tail := Cut(lengths, bytes).value, Cut(lengths[1..], rest).value;
      assert parts[1..] == tail;
      assert bytes[..n] + rest[..Total(lengths[1..])] == bytes[..Total(lengths)];
    }
  }

  function Lengths(buffers: seq<Buffer>): (r: seq<int>)
    ensures |r| == |buffers| && forall i :: 0 <= i < |r| ==> r[i] == buffers[i].length
  {
    seq(|buffers|, i requires 0 <= i < |buffers| => buffers[i].length)
  }

  /** The buffers with their bytes filled in. */
  function Filled(buffers: seq<Buffer>, parts: seq<seq<byte>>): (r: seq<Buffer>)
    requires |parts| == |buffers|
    ensures |r| == |buffers| && forall i :: 0 <= i < |r| ==> r[i] == buffers[i].(data := parts[i])
  {
    seq(|buffers|, i requires 0 <= i < |buffers| => buffers[i].(data := parts[i]))
  }

  function Join(parts: seq<seq<byte>>, rest: Option<seq<seq<byte>>>): Option<seq<seq<byte>>> {
    if rest.None? then None else Some(parts + rest.value)
  }

  lemma JoinLaws(parts: seq<seq<byte>>, part: seq<byte>, rest: Option<seq<seq<byte>>>)
    ensures Join([], rest) == rest && Join(parts, Join([part], rest)) == Join(parts + [part], rest)
  {
    if rest.Some? {
      assert [] + rest.value == rest.value && parts + ([part] + rest.value) == (parts + [part]) + rest.value;
    }
  }

  /** What is cut after the first `i` pieces, and what that says about the whole. */
  lemma CutNext(lengths: seq<int>, bytes: seq<byte>, pos: nat, i: nat)
    requires i < |lengths| && pos <= |bytes|
    ensures var n, rest := lengths[i], Cut(lengths[i..], bytes[pos..]);
            if !(0 <= n <= |bytes| - pos) then rest.None?
            else
              var next := Cut(lengths[i + 1..], bytes[pos + n..]);
              rest == Join([bytes[pos..pos + n]], next)
  {
    var n := lengths[i];
    assert lengths[i..][0] == n && lengths[i..][1..] == lengths[i + 1..];
    if 0 <= n <= |bytes| - pos {
      assert bytes[pos..][n..] == bytes[pos + n..] && bytes[pos..][..n] == bytes[pos..pos + n];
    }
  }

  /** One round of the loop over the buffers, `parts` being cut so far. */
  lemma CutStep(lengths: seq<int>, bytes: seq<byte>, parts: seq<seq<byte>>, pos: nat, i: nat)
    requires i < |lengths| && pos <= |bytes|
    requires Cut(lengths, bytes) == Join(parts, Cut(lengths[i..], bytes[pos..]))
    ensures var end := pos + lengths[i];
            if pos <= end <= |bytes| then
              Cut(lengths, bytes) == Join(parts + [bytes[pos..end]], Cut(lengths[i + 1..], bytes[end..]))
            else Cut(lengths, bytes).None?
  {
    var end := pos + lengths[i];
    CutNext(lengths, bytes, pos, i);
    if pos <= end <= |bytes| { JoinLaws(parts, bytes[pos..end], Cut(lengths[i + 1..], bytes[end..])); }
  }

  /**
   SetBuffers slices the bytes read after the body.  Go bounds a slice expression by the capacity of
   its operand, so `backing` is the whole allocation; `ok` is false where the original panics.
   */
  method SetBuffers(msg: array<Buffer>, backing: seq<byte>) returns (ok: bool)
    modifies msg
    ensures var cut := Cut(Lengths(old(msg[..])), backing);
            && ok == cut.Some?
            && (ok ==> |cut.value| == msg.Length && msg[..] == Filled(old(msg[..]), cut.value))
  {
    var pos := 0;
    ghost var buffers := msg[..];
    ghost var lengths := Lengths(buffers);
    ghost var parts: seq<seq<byte>> := [];
    var i := 0;
    assert lengths[0..] == lengths && backing[0..] == backing;
    JoinLaws([], [], Cut(lengths, backing));
    while i < msg.Length
      invariant 0 <= i <= msg.Length && 0 <= pos <= |backing| && |parts| == i
      invariant forall j :: 0 <= j < i ==> msg[j] == buffers[j].(data := parts[j])
      invariant forall j :: i <= j < msg.Length ==> msg[j] == buffers[j]
      invariant Cut(lengths, backing) == Join(parts, Cut(lengths[i..], backing[pos..]))
    {
      var end := pos + msg[i].length;
      CutStep(lengths, backing, parts, pos, i);
      if !(pos <= end <= |backing|) {
        return false;
      }
      msg[i] := msg[i].(data := backing[pos..end]);
      parts := parts + [backing[pos..end]];
      pos, i := end, i + 1;
    }
    assert lengths[i..] == [] && parts + [] == parts;
    assert msg[..] == Filled(buffers, parts);
    return true;
  }

  // ---------------------------------------------------------------- whole messages

  /** A decoded message: what the caller sees of it, and its buffers before and after they are filled. */
  datatype Message = Message(content: string, buffers: seq<Buffer>)

  /** ReadMessage fails with an error, panics in SetBuffers, or returns a message. */
  datatype Received = Got(message: Message) | Failed | Panicked

  /**
   What ReadMessage makes of one websocket message, for a JSON decoder and the spare capacity `spare`
   of the buffer that io.ReadAll returns.
   */
  function Receive(message: seq<byte>, limit: nat, decode: seq<byte> -> Option<Message>, spare: seq<byte>): Received {
    match Decode(Readable(message, limit))
    case Body(bytes) =>
      (match decode(bytes)
       case None => Failed
       case Some(m) =>
         if m.buffers == [] then Got(m)
         else if |message| > limit then Failed
         else
           var backing := message[HEADER + |bytes|..] + spare;
           CutIffFits(Lengths(m.buffers), backing);
           if Fits(Lengths(m.buffers), |backing|) then
             CutConcat(Lengths(m.buffers), backing);
             Got(m.(buffers := Filled(m.buffers, Cut(Lengths(m.buffers), backing).value)))
           else Panicked)
    case _ => Failed
  }

  /** ReadMessage, down to the buffers. */
  method ReadMessage(reader: Reader, decode: seq<byte> -> Option<Message>, spare: seq<byte>) returns (r: Received)
    requires reader.Valid() && reader.pos == 0
    modifies reader
    ensures r == Receive(reader.message, reader.limit, decode, spare)
  {
    var body := reader.ReadBody();
    if !body.Body? { return Failed; }
    var decoded := decode(body.bytes);
    if decoded.None? { return Failed; }
    var m := decoded.value;
    if m.buffers == [] { return Got(m); }
    var ok, rest := reader.ReadAll();
    if !ok { return Failed; }
    var buffers := new Buffer[|m.buffers|](i requires 0 <= i < |m.buffers| => m.buffers[i]);
    assert buffers[..] == m.buffers;
    ok := SetBuffers(buffers, rest + spare);
    CutIffFits(Lengths(m.buffers), rest + spare);
    if !ok { return Panicked; }
    return Got(m.(buffers := buffers[..]));
  }

  /** The buffers a decoded message announces are in the rest of the websocket message, or in what lies behind it. */
  predicate BuffersFit(message: seq<byte>, body: seq<byte>, m: Message, spare: seq<byte>)
    requires |message| >= HEADER + |body|
  {
    Fits(Lengths(m.buffers), |message| - HEADER - |body| + |spare|)
  }

  /**
   How ReadMessage ends: it needs a whole body that decodes.  A message with buffers needs besides to be
   within the read limit as a whole, and panics exactly if it then announces more than there is.
   */
  lemma ReceivedIff(message: seq<byte>, limit: nat, decode: seq<byte> -> Option<Message>, spare: seq<byte>)
    ensures var body, r := Decode(Readable(message, limit)), Receive(message, limit, decode, spare);
            if !body.Body? || decode(body.bytes).None? then r.Failed?
            else
              var m := decode(body.bytes).value;
              && |message| >= HEADER + |body.bytes|
              && (r.Got? <==> m.buffers == [] || (|message| <= limit && BuffersFit(message, body.bytes, m, spare)))
              && (r.Panicked? <==>
                    m.buffers != [] && |message| <= limit && !BuffersFit(message, body.bytes, m, spare))
  {
  }

  function Datas(buffers: seq<Buffer>): (r: seq<seq<byte>>)
    ensures |r| == |buffers| && forall i :: 0 <= i < |r| ==> r[i] == buffers[i].data
  {
    seq(|buffers|, i requires 0 <= i < |buffers| => buffers[i].data)
  }

  lemma FitsMore(lengths: seq<int>, capacity: nat, more: nat)
    requires Fits(lengths, capacity) && capacity <= more
    ensures Fits(lengths, more)
  {
  }

  /**
   A message sent as a frame with its buffers behind the body comes back whole: the decoded message,
   its buffers filled with exactly the bytes that followed, whatever spare capacity the reader had.
   */
  lemma MessageRoundTrip(body: seq<byte>, payload: seq<byte>, limit: nat, decode: seq<byte> -> Option<Message>,
                         spare: seq<byte>, m: Message)
    requires |body| <= MAX_MESSAGE_SIZE && HEADER + |body| + |payload| <= limit && decode(body) == Some(m)
    requires Fits(Lengths(m.buffers), |payload|) && Total(Lengths(m.buffers)) == |payload|
    ensures var r := Receive(WriteFrame(body) + payload, limit, decode, spare);
            && r.Got? && r.message.content == m.content && |r.message.buffers| == |m.buffers|
            && Concat(Datas(r.message.buffers)) == payload
            && forall i :: 0 <= i < |m.buffers| ==>
                 && r.message.buffers[i].name == m.buffers[i].name
                 && |r.message.buffers[i].data| == r.message.buffers[i].length == m.buffers[i].length
  {
    FrameThen(body, payload, limit);
    FilledWhole(m, payload, spare);
  }

  /** The body is read from a frame with anything behind it. */
  lemma FrameThen(body: seq<byte>, payload: seq<byte>, limit: nat)
    requires |body| <= MAX_MESSAGE_SIZE && HEADER + |body| + |payload| <= limit
    ensures var f := WriteFrame(body) + payload;
            && |f| == HEADER + |body| + |payload| && f[HEADER + |body|..] == payload
            && Readable(f, limit) == f && Decode(f) == Body(body)
  {
    var f := WriteFrame(body) + payload;
    FrameHeader(body);
    assert f[..4] == WriteFrame(body)[..4] && f[4..8] == WriteFrame(body)[4..8];
    assert f[HEADER..HEADER + |body|] == WriteFrame(body)[HEADER..] == body;
  }

  /** Buffers that the payload fills exactly hold it, whatever lies behind it. */
  lemma FilledWhole(m: Message, payload: seq<byte>, spare: seq<byte>)
    requires Fits(Lengths(m.buffers), |payload|) && Total(Lengths(m.buffers)) == |payload|
    ensures var backing := payload + spare;
            && Fits(Lengths(m.buffers), |backing|) && Cut(Lengths(m.buffers), backing).Some?
            && var parts := Cut(Lengths(m.buffers), backing).value;
               && |parts| == |m.buffers| && (forall i :: 0 <= i < |parts| ==> |parts[i]| == m.buffers[i].length)
               && Concat(Datas(Filled(m.buffers, parts))) == payload
    ensures m.buffers == [] ==> payload == [] && Datas(m.buffers) == []
  {
    var backing := payload + spare;
    FitsMore(Lengths(m.buffers), |payload|, |backing|);
    CutIffFits(Lengths(m.buffers), backing);
    CutConcat(Lengths(m.buffers), backing);
    var parts := Cut(Lengths(m.buffers), backing).value;
    assert backing[..|payload|] == payload && Datas(Filled(m.buffers, parts)) == parts;
    if m.buffers == [] { assert Lengths(m.buffers) == []; }
  }
}
