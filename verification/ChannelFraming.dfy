/**
  Messages between gate and agent: ChannelMsgProxy::SendToAgent writes a 16-bit head length, the
  head and the data into one buffer that it reuses, and ZoneAgentMgr::OnGateMessage takes them
  apart again.  The gate calls it with its report as the head and the client's bytes as the data.
 */
module ChannelFraming {
  import opened Values
  import opened FrameDecoder

  const HEAD_SIZE: nat := 2          // PROXY_CHANNEL_MESSAGE_HEAD_SIZE
  const MAX_MESSAGE: nat := 65536    // MAX_CHANNEL_MESSAGE_SIZE

  /** htons of an int, of which the low 16 bits are taken. */
  function Short(n: nat): (r: Bytes)
    ensures |r| == HEAD_SIZE
  {
    [n % 65536 / 256, n % 256]
  }

  /** The message SendToAgent posts, or nothing when it is too large. */
  function Encode(parts: seq<Bytes>, headSize: nat): (r: Option<Bytes>) {
    if MAX_MESSAGE <= |Flat(parts)| + HEAD_SIZE then None else Some(Short(headSize) + Flat(parts))
  }

  /** OnGateMessage's split into head and data; a message shorter than the length field is not handled. */
  function Split(msg: Bytes): (r: Option<(Bytes, Bytes)>)
    requires HEAD_SIZE <= |msg|
  {
    var n := NetShort(msg[0], msg[1]);
    if |msg| < n + HEAD_SIZE then None else Some((msg[HEAD_SIZE..HEAD_SIZE + n], msg[HEAD_SIZE + n..]))
  }

  /**
    Whatever the parts: a message that is sent is split at the head size given to the sender, if
    the parts are at least that long, and refused by the receiver otherwise.
   */
  lemma {:induction false} SplitUndoesEncode(parts: seq<Bytes>, headSize: nat)
    requires headSize < 65536 && |Flat(parts)| < 65534
    ensures var msg := Encode(parts, headSize).value;
            2 <= |msg| && 256 * msg[0] as int + msg[1] as int == headSize && msg[2..] == Flat(parts)
    ensures var body := Flat(parts);
            Split(Encode(parts, headSize).value)
            == if headSize <= |body| then Some((body[..headSize], body[headSize..])) else None
  {
    var body := Flat(parts);
    var msg := Encode(parts, headSize).value;
    assert msg[0] == headSize / 256 && msg[1] == headSize % 256;
    PrefixRoundTrip(headSize);
    if headSize <= |body| {
      assert msg[HEAD_SIZE..HEAD_SIZE + headSize] == body[..headSize];
      assert msg[HEAD_SIZE + headSize..] == body[headSize..];
    }
  }

  lemma {:induction false} FlatOfTwo(a: Bytes, b: Bytes)
    ensures Flat([a, b]) == a + b && Flat([a]) == a
  {
    assert [a, b][1..] == [b] && [b][1..] == [] && [a][1..] == [];
    assert Flat([b]) == b + [] == b;
    assert Flat([a]) == a + [] == a;
  }

  /**
    A report with a client's bytes reaches the agent unchanged if and only if the two are
    together below 65534 bytes; a larger one, which the gate accepts from the client up to 65535
    bytes, is dropped by the sender.
   */
  lemma {:induction false} ReportReachesTheAgentExactlyWhen(head: Bytes, data: Bytes)
    ensures var sent := Encode([head, data], |head|);
            sent.Some? && Split(sent.value) == Some((head, data)) <==> |head| + |data| < 65534
  {
    FlatOfTwo(head, data);
    if |head| + |data| < 65534 {
      SplitUndoesEncode([head, data], |head|);
      assert (head + data)[..|head|] == head && (head + data)[|head|..] == data;
    }
  }

  function TotalLength(parts: seq<Bytes>): (n: nat)
    decreases |parts|
  {
    if parts == [] then 0 else |parts[0]| + TotalLength(parts[1..])
  }

  lemma {:induction false} LengthOfFlat(parts: seq<Bytes>)
    ensures |Flat(parts)| == TotalLength(parts)
    decreases |parts|
  {
    if parts != [] { LengthOfFlat(parts[1..]); }
  }

  class ChannelMsgProxy {
    const buffer: array<Byte>   // chnMsgSendBuffer
    var used: nat

    constructor ()
      ensures fresh(buffer) && buffer.Length == MAX_MESSAGE && used == 0
    {
      buffer := new Byte[MAX_MESSAGE](_ => 0);
      used := 0;
    }

    /** `ready`: the destination channel exists.  The result is the message posted. */
    method SendToAgent(ready: bool, parts: seq<Bytes>, headSize: nat) returns (posted: Option<Bytes>)
      requires buffer.Length == MAX_MESSAGE
      modifies this, buffer
      ensures posted == if ready then Encode(parts, headSize) else None
      ensures posted.Some? ==> used <= buffer.Length && buffer[..used] == posted.value
      ensures posted.None? ==> used == old(used) && buffer[..] == old(buffer[..])
    {
      var length := 0;
      assert parts[0..] == parts;
      for i := 0 to |parts|
        invariant 0 <= length && length + TotalLength(parts[i..]) == TotalLength(parts)
      {
        length := length + |parts[i]|;
        assert parts[i..][1..] == parts[i + 1..];
      }
      LengthOfFlat(parts);
      if length + HEAD_SIZE >= MAX_MESSAGE { return None; }
      if !ready { return None; }
      var head := Short(headSize);
      buffer[0], buffer[1] := head[0], head[1];
      used := HEAD_SIZE;
      for i := 0 to |parts|
        invariant HEAD_SIZE <= used && used + |Flat(parts[i..])| == HEAD_SIZE + |Flat(parts)|
        invariant buffer[..used] + Flat(parts[i..]) == Short(headSize) + Flat(parts)
      {
        assert parts[i..][0] == parts[i] && parts[i..][1..] == parts[i + 1..];
        ghost var before := buffer[..used];
        Append(parts[i]);
        assert buffer[..used] == before + parts[i];
        assert before + (parts[i] + Flat(parts[i + 1..])) == (before + parts[i]) + Flat(parts[i + 1..]);
      }
      assert buffer[..used] + [] == buffer[..used];
      posted := Some(buffer[..used]);
    }

    /** memcpy behind what is used. */
    method Append(part: Bytes)
      requires used + |part| <= buffer.Length
      modifies this`used, buffer
      ensures used == old(used) + |part| && buffer[..used] == old(buffer[..used]) + part
    {
      for k := 0 to |part|
        invariant used == old(used)
        invariant buffer[..used + k] == old(buffer[..used]) + part[..k]
      {
        buffer[used + k] := part[k];
      }
      used := used + |part|;
    }
  }
}
