/**
  The length-prefixed stream decoder that gate/GateServerHandler.cpp and
  client/gate/GateClientHandler.cpp both contain, and the encoder that feeds it.

  `Feed` is one activation of the receive handler up to the first complete message, with the
  receive buffer and its fill count `used` as the source keeps them.  The source never advances
  `used`, so bytes of an incomplete message are forgotten; `DecodesExactlyWhen` says precisely
  for which ways of cutting the stream that does no harm.
 */
module FrameDecoder {
  import opened Values

  const PREFIX: nat := 2
  const MAX_FRAME: nat := 65535 // (uint16_t)(-1)

  // ---------------------------------------------------------------- the sender

  /** htons of the length, then the payload. */
  function Frame(p: Bytes): (r: Bytes)
    requires |p| <= MAX_FRAME
  {
    [|p| / 256, |p| % 256] + p
  }

  predicate Sendable(ps: seq<Bytes>) {
    forall i :: 0 <= i < |ps| ==> |ps[i]| <= MAX_FRAME
  }

  function Stream(ps: seq<Bytes>): (r: Bytes)
    requires Sendable(ps)
    decreases |ps|
  {
    if ps == [] then [] else Frame(ps[0]) + Stream(ps[1..])
  }

  // ---------------------------------------------------------------- the receiver

  datatype Decoder = Decoder(msgLen: nat, used: nat, buf: Bytes)

  datatype Fed = Corrupt | Waiting(d: Decoder) | Complete(d: Decoder, msg: Bytes, rest: Bytes)

  /** The buffer holds a largest frame, and what is buffered belongs to the message being received. */
  predicate Roomy(d: Decoder) {
    && MAX_FRAME < |d.buf|
    && d.msgLen <= MAX_FRAME
    && (0 < d.msgLen ==> d.used <= d.msgLen)
  }

  /** Nothing is buffered. */
  predicate Clean(d: Decoder) {
    Roomy(d) && d.used == 0
  }

  /** memcpy into the receive buffer. */
  function Copy(buf: Bytes, at: nat, src: Bytes): (r: Bytes)
    requires at + |src| <= |buf|
    ensures |r| == |buf|
    ensures r[at..at + |src|] == src
  {
    buf[..at] + src + buf[at + |src|..]
  }

  function NetShort(hi: Byte, lo: Byte): (n: nat)
    ensures n <= MAX_FRAME
  {
    hi * 256 + lo
  }

  function Feed(d: Decoder, chunk: Bytes): (r: Fed)
    requires Roomy(d)
  {
    if d.msgLen == 0 then
      if PREFIX <= d.used then Corrupt
      else if PREFIX <= d.used + |chunk| then
        var off := PREFIX - d.used;
        var buf := Copy(d.buf, d.used, chunk[..off]);
        FeedBody(Decoder(NetShort(buf[0], buf[1]), 0, buf), chunk, off)
      else
        FeedBody(d.(buf := Copy(d.buf, d.used, chunk)), chunk, 0)
    else
      FeedBody(d, chunk, 0)
  }

  function FeedBody(d: Decoder, chunk: Bytes, off: nat): (r: Fed)
    requires Roomy(d) && off <= |chunk|
  {
    if d.msgLen == 0 then Waiting(d)
    else if d.msgLen <= |chunk| + d.used - off then
      var n := d.msgLen - d.used;
      var buf := Copy(d.buf, d.used, chunk[off..off + n]);
      Complete(Decoder(0, 0, buf), buf[..d.msgLen], chunk[off + n..])
    else Waiting(d)
  }

  /**
    What an activation of the decoder comes to: the state stays clean, so the corrupt branch
    is never taken; the message is a slice of the chunk, whatever the buffer held before; and a
    message that is not complete leaves no trace but its length.
   */
  lemma {:induction false} FeedFromClean(d: Decoder, chunk: Bytes)
    requires Clean(d)
    ensures var want := if 0 < d.msgLen then d.msgLen else if |chunk| < PREFIX then 0 else NetShort(chunk[0], chunk[1]);
            var off := if 0 < d.msgLen || |chunk| < PREFIX then 0 else PREFIX;
            var r := Feed(d, chunk);
            && !r.Corrupt? && Clean(r.d)
            && if 0 < want <= |chunk| - off then
                 r.Complete? && r.d.msgLen == 0 && r.msg == chunk[off..off + want] && r.rest == chunk[off + want..]
               else
                 r.Waiting? && r.d.msgLen == want
  {
    if d.msgLen == 0 && PREFIX <= |chunk| {
      var buf := Copy(d.buf, 0, chunk[..2]);
      assert buf[0] == chunk[0] && buf[1] == chunk[1];
      var d' := Decoder(NetShort(buf[0], buf[1]), 0, buf);
      if 0 < d'.msgLen <= |chunk| - 2 {
        var b := Copy(buf, 0, chunk[2..2 + d'.msgLen]);
        assert b[..d'.msgLen] == b[0..0 + d'.msgLen];
      }
    } else if 0 < d.msgLen <= |chunk| {
      var b := Copy(d.buf, 0, chunk[0..0 + d.msgLen]);
      assert b[..d.msgLen] == b[0..0 + d.msgLen];
    }
  }

  /** The length goes first and in network order: two bytes, the high one first. */
  lemma {:induction false} LengthIsBigEndian(d: Decoder, p: Bytes, chunk: Bytes)
    requires |p| <= 65535 && Clean(d) && d.msgLen == 0 && 2 <= |chunk|
    ensures |Frame(p)| == 2 + |p| && Frame(p)[2..] == p
    ensures 256 * Frame(p)[0] as int + Frame(p)[1] as int == |p|
    ensures var want := 256 * chunk[0] as int + chunk[1] as int;
            var r := Feed(d, chunk);
            if 0 < want <= |chunk| - 2 then
              r.Complete? && r.msg == chunk[2..2 + want] && r.rest == chunk[2 + want..]
            else r.Waiting? && r.d.msgLen == want
  {
    FeedFromClean(d, chunk);
  }

  /** The messages of a chunk: the handler calls itself on what is left after each one. */
  function Drain(d: Decoder, chunk: Bytes): (r: (Decoder, seq<Bytes>))
    requires Clean(d)
    decreases |chunk|
  {
    FeedFromClean(d, chunk);
    match Feed(d, chunk)
    case Waiting(d') => (d', [])
    case Complete(d', msg, rest) =>
      if rest == [] then (d', [msg])
      else
        var more := Drain(d', rest);
        (more.0, [msg] + more.1)
  }

  // ---------------------------------------------------------------- without the buffer

  datatype Taken = Taken(want: nat, msgs: seq<Bytes>)

  /** The decoder as a function of the length it waits for; 0 means it waits for a prefix. */
  function Take(want: nat, chunk: Bytes): (r: Taken)
    decreases |chunk|, 1
  {
    if 0 < want then TakeBody(want, chunk)
    else if |chunk| < PREFIX || NetShort(chunk[0], chunk[1]) == 0 then Taken(0, [])
    else TakeBody(NetShort(chunk[0], chunk[1]), chunk[PREFIX..])
  }

  function TakeBody(want: nat, chunk: Bytes): (r: Taken)
    requires 0 < want
    decreases |chunk|, 0
  {
    if |chunk| < want then Taken(want, [])
    else
      var more := Take(0, chunk[want..]);
      Taken(more.want, [chunk[..want]] + more.msgs)
  }

  lemma {:induction false} DrainIsTake(d: Decoder, chunk: Bytes)
    requires Clean(d)
    ensures Clean(Drain(d, chunk).0)
    ensures Taken(Drain(d, chunk).0.msgLen, Drain(d, chunk).1) == Take(d.msgLen, chunk)
    decreases |chunk|
  {
    FeedFromClean(d, chunk);
    var r := Feed(d, chunk);
    if r.Complete? {
      var off := if 0 < d.msgLen then 0 else PREFIX;
      var want := if 0 < d.msgLen then d.msgLen else NetShort(chunk[0], chunk[1]);
      assert chunk[off..][..want] == r.msg && chunk[off..][want..] == r.rest;
      assert Take(d.msgLen, chunk) == TakeBody(want, chunk[off..]) by { assert chunk[0..] == chunk; }
      if r.rest == [] {
        assert Take(0, r.rest) == Taken(0, []);
        assert [r.msg] + [] == [r.msg];
      } else {
        DrainIsTake(r.d, r.rest);
      }
    }
  }

  function TakeAll(want: nat, chunks: seq<Bytes>): (r: Taken)
    decreases |chunks|
  {
    if chunks == [] then Taken(want, [])
    else
      var first := Take(want, chunks[0]);
      var more := TakeAll(first.want, chunks[1..]);
      Taken(more.want, first.msgs + more.msgs)
  }

  // ---------------------------------------------------------------- which cuts are harmless

  predicate NonEmpty(ps: seq<Bytes>) {
    forall i :: 0 <= i < |ps| ==> 0 < |ps[i]|
  }

  /** Offset `n` of the stream is the start of a frame or lies just behind a length prefix. */
  predicate Aligned(ps: seq<Bytes>, n: int)
    decreases |ps|
  {
    n == 0 || (ps != [] && (n == PREFIX || Aligned(ps[1..], n - PREFIX - |ps[0]|)))
  }

  function Flat(chunks: seq<Bytes>): (r: Bytes)
    decreases |chunks|
  {
    if chunks == [] then [] else chunks[0] + Flat(chunks[1..])
  }

  /** Every chunk ends at an aligned offset of the stream. */
  predicate CutsAligned(ps: seq<Bytes>, at: int, chunks: seq<Bytes>)
    decreases |chunks|
  {
    chunks == [] || (Aligned(ps, at + |chunks[0]|) && CutsAligned(ps, at + |chunks[0]|, chunks[1..]))
  }

  // What the sender's bytes up to here leave to be received: the prefix of ps[0] is in when want > 0.
  predicate InStep(want: nat, ps: seq<Bytes>) {
    Sendable(ps) && NonEmpty(ps) && (0 < want ==> ps != [] && want == |ps[0]|)
  }

  function Owed(want: nat, ps: seq<Bytes>): (r: Bytes)
    requires InStep(want, ps)
  {
    if 0 < want then ps[0] + Stream(ps[1..]) else Stream(ps)
  }

  function PrefixHeld(want: nat): (n: nat) {
    if 0 < want then PREFIX else 0
  }

  function Volume(msgs: seq<Bytes>): (n: nat)
    decreases |msgs|
  {
    if msgs == [] then 0 else PREFIX + |msgs[0]| + Volume(msgs[1..])
  }

  lemma {:induction false} VolumeOfConcat(a: seq<Bytes>, b: seq<Bytes>)
    ensures Volume(a + b) == Volume(a) + Volume(b)
    decreases |a|
  {
    if a == [] {
      assert a + b == b;
    } else {
      VolumeOfConcat(a[1..], b);
      assert (a + b)[1..] == a[1..] + b;
    }
  }

  lemma {:induction false} VolumeOfStream(ps: seq<Bytes>)
    requires Sendable(ps)
    ensures |Stream(ps)| == Volume(ps)
    decreases |ps|
  {
    if ps != [] { VolumeOfStream(ps[1..]); }
  }

  /** Bytes are only ever lost: what comes out is never more than what went in. */
  lemma {:induction false} TakeLosesOnly(want: nat, chunk: Bytes)
    ensures var r := Take(want, chunk); Volume(r.msgs) + PrefixHeld(r.want) <= PrefixHeld(want) + |chunk|
    decreases |chunk|, 1
  {
    if 0 < want {
      TakeBodyLosesOnly(want, chunk);
    } else if PREFIX <= |chunk| && NetShort(chunk[0], chunk[1]) != 0 {
      TakeBodyLosesOnly(NetShort(chunk[0], chunk[1]), chunk[PREFIX..]);
    }
  }

  lemma {:induction false} TakeBodyLosesOnly(want: nat, chunk: Bytes)
    requires 0 < want
    ensures var r := TakeBody(want, chunk); Volume(r.msgs) + PrefixHeld(r.want) <= PREFIX + |chunk|
    decreases |chunk|, 0
  {
    if want <= |chunk| {
      var more := Take(0, chunk[want..]);
      TakeLosesOnly(0, chunk[want..]);
      assert ([chunk[..want]] + more.msgs)[1..] == more.msgs;
    }
  }

  lemma {:induction false} TakeAllLosesOnly(want: nat, chunks: seq<Bytes>)
    ensures var r := TakeAll(want, chunks);
            Volume(r.msgs) + PrefixHeld(r.want) <= PrefixHeld(want) + |Flat(chunks)|
    decreases |chunks|
  {
    if chunks != [] {
      var first := Take(want, chunks[0]);
      TakeLosesOnly(want, chunks[0]);
      TakeAllLosesOnly(first.want, chunks[1..]);
      VolumeOfConcat(first.msgs, TakeAll(first.want, chunks[1..]).msgs);
    }
  }

  lemma {:induction false} NothingBeforeTheStart(ps: seq<Bytes>, n: int)
    requires n < 0
    ensures !Aligned(ps, n)
    decreases |ps|
  {
    if ps != [] { NothingBeforeTheStart(ps[1..], n - PREFIX - |ps[0]|); }
  }

  /** `r` is what is left when the chunk ends on the aligned offset `total` of `ps`. */
  ghost predicate Advances(ps: seq<Bytes>, total: nat, tail: Bytes, r: Taken) {
    && |r.msgs| <= |ps| && r.msgs == ps[..|r.msgs|]
    && InStep(r.want, ps[|r.msgs|..])
    && tail == Owed(r.want, ps[|r.msgs|..])
    && Volume(r.msgs) + PrefixHeld(r.want) == total
  }

  // An aligned end keeps the decoder in step with the payloads; any other one loses bytes.
  ghost predicate KeepsStep(ps: seq<Bytes>, total: nat, tail: Bytes, r: Taken) {
    if Aligned(ps, total) then Advances(ps, total, tail, r) else Volume(r.msgs) + PrefixHeld(r.want) < total
  }

  lemma {:induction false} OneByteIsLost(ps: seq<Bytes>, c: Bytes)
    requires |c| == 1
    ensures !Aligned(ps, 1) && Take(0, c).msgs == [] && Take(0, c).want == 0
  {
    if ps != [] { NothingBeforeTheStart(ps[1..], 1 - PREFIX - |ps[0]|); }
  }

  lemma {:induction false} TakeInStep(want: nat, ps: seq<Bytes>, c: Bytes, tail: Bytes)
    requires InStep(want, ps) && c + tail == Owed(want, ps)
    ensures KeepsStep(ps, PrefixHeld(want) + |c|, tail, Take(want, c))
    decreases |c|, 1
  {
    if 0 < want {
      TakeBodyInStep(ps, c, tail);
    } else if c == [] {
      assert ps[0..] == ps;
    } else if |c| == 1 {
      OneByteIsLost(ps, c);
    } else {
      PrefixThenBody(ps, c, tail);
      TakeBodyInStep(ps, c[PREFIX..], tail);
      assert Take(want, c) == TakeBody(|ps[0]|, c[PREFIX..]);
    }
  }

  lemma {:induction false} PrefixThenBody(ps: seq<Bytes>, c: Bytes, tail: Bytes)
    requires InStep(0, ps) && c + tail == Stream(ps) && PREFIX <= |c|
    ensures ps != [] && NetShort(c[0], c[1]) == |ps[0]|
    ensures c[PREFIX..] + tail == ps[0] + Stream(ps[1..])
  {
    assert ps != [];
    PrefixOf(ps[0], Stream(ps[1..]), c, tail);
    PrefixRoundTrip(|ps[0]|);
  }

  lemma {:induction false} PrefixOf(p: Bytes, more: Bytes, c: Bytes, tail: Bytes)
    requires |p| <= MAX_FRAME && c + tail == Frame(p) + more && PREFIX <= |c|
    ensures c[0] == |p| / 256 && c[1] == |p| % 256
    ensures c[PREFIX..] + tail == p + more
  {
    var s := Frame(p) + more;
    assert c[0] == (c + tail)[0] == s[0] && c[1] == (c + tail)[1] == s[1];
    assert c[PREFIX..] + tail == (c + tail)[PREFIX..];
    assert s[PREFIX..] == p + more;
  }

  lemma {:induction false} PrefixRoundTrip(n: nat)
    requires n <= MAX_FRAME
    ensures n / 256 < 256 && NetShort(n / 256, n % 256) == n
  {
  }

  lemma {:induction false} TakeBodyInStep(ps: seq<Bytes>, c: Bytes, tail: Bytes)
    requires InStep(0, ps) && ps != [] && c + tail == ps[0] + Stream(ps[1..])
    ensures KeepsStep(ps, PREFIX + |c|, tail, TakeBody(|ps[0]|, c))
    decreases |c|, 0
  {
    var n := |ps[0]|;
    if |c| < n {
      PartOfBody(ps, c, tail);
    } else {
      assert c[..n] == ps[0] by { assert c[..n] == (c + tail)[..n]; }
      assert c[n..] + tail == Stream(ps[1..]) by { assert c[n..] + tail == (c + tail)[n..]; }
      TakeInStep(0, ps[1..], c[n..], tail);
    }
  }

  lemma {:induction false} PartOfBody(ps: seq<Bytes>, c: Bytes, tail: Bytes)
    requires InStep(0, ps) && ps != [] && c + tail == ps[0] + Stream(ps[1..]) && |c| < |ps[0]|
    ensures Aligned(ps, PREFIX + |c|) <==> c == []
    ensures c == [] ==> Advances(ps, PREFIX, tail, Taken(|ps[0]|, []))
  {
    NothingBeforeTheStart(ps[1..], |c| - |ps[0]|);
    assert ps[0..] == ps;
    assert c == [] ==> c + tail == tail;
  }

  lemma {:induction false} AlignedAfter(ps: seq<Bytes>, k: nat, n: int)
    requires NonEmpty(ps) && k <= |ps| && Volume(ps[..k]) <= n
    ensures Aligned(ps, n) <==> Aligned(ps[k..], n - Volume(ps[..k]))
    decreases k
  {
    if k == 0 {
      assert ps[0..] == ps;
    } else {
      assert ps[..k][1..] == ps[1..][..k - 1] && ps[1..][k - 1..] == ps[k..];
      AlignedAfter(ps[1..], k - 1, n - PREFIX - |ps[0]|);
    }
  }

  lemma {:induction false} CutsAlignedAfter(ps: seq<Bytes>, k: nat, at: int, chunks: seq<Bytes>)
    requires NonEmpty(ps) && k <= |ps| && Volume(ps[..k]) <= at
    ensures CutsAligned(ps, at, chunks) <==> CutsAligned(ps[k..], at - Volume(ps[..k]), chunks)
    decreases |chunks|
  {
    if chunks != [] {
      AlignedAfter(ps, k, at + |chunks[0]|);
      CutsAlignedAfter(ps, k, at + |chunks[0]|, chunks[1..]);
    }
  }

  lemma {:induction false} TakeAllInStep(want: nat, ps: seq<Bytes>, chunks: seq<Bytes>)
    requires InStep(want, ps) && Flat(chunks) == Owed(want, ps)
    ensures TakeAll(want, chunks).msgs == ps <==> CutsAligned(ps, PrefixHeld(want), chunks)
    ensures TakeAll(want, chunks).msgs == ps ==> TakeAll(want, chunks).want == 0
    decreases |chunks|
  {
    VolumeOwed(want, ps);
    if chunks != [] {
      var first := Take(want, chunks[0]);
      if Aligned(ps, PrefixHeld(want) + |chunks[0]|) {
        FirstChunkInStep(want, ps, chunks, first);
        var k := |first.msgs|;
        TakeAllInStep(first.want, ps[k..], chunks[1..]);
      } else {
        TakeInStep(want, ps, chunks[0], Flat(chunks[1..]));
        TakeAllLosesOnly(first.want, chunks[1..]);
        VolumeOfConcat(first.msgs, TakeAll(first.want, chunks[1..]).msgs);
      }
    }
  }

  /** An aligned chunk leaves the decoder in step with the payloads it has not delivered. */
  lemma {:induction false} FirstChunkInStep(want: nat, ps: seq<Bytes>, chunks: seq<Bytes>, first: Taken)
    requires InStep(want, ps) && Flat(chunks) == Owed(want, ps) && chunks != []
    requires first == Take(want, chunks[0]) && Aligned(ps, PrefixHeld(want) + |chunks[0]|)
    ensures |first.msgs| <= |ps| && first.msgs == ps[..|first.msgs|] && InStep(first.want, ps[|first.msgs|..])
    ensures Flat(chunks[1..]) == Owed(first.want, ps[|first.msgs|..])
    ensures CutsAligned(ps, PrefixHeld(want), chunks)
            <==> CutsAligned(ps[|first.msgs|..], PrefixHeld(first.want), chunks[1..])
  {
    TakeInStep(want, ps, chunks[0], Flat(chunks[1..]));
    CutsAlignedAfter(ps, |first.msgs|, PrefixHeld(want) + |chunks[0]|, chunks[1..]);
  }

  lemma {:induction false} VolumeOwed(want: nat, ps: seq<Bytes>)
    requires InStep(want, ps)
    ensures PrefixHeld(want) + |Owed(want, ps)| == Volume(ps)
  {
    VolumeOfStream(ps);
    if 0 < want { VolumeOfStream(ps[1..]); }
  }

  lemma {:induction false} MessagesAreNonEmpty(want: nat, chunk: Bytes)
    ensures NonEmpty(Take(want, chunk).msgs)
    decreases |chunk|
  {
    var off := if 0 < want then 0 else PREFIX;
    if off <= |chunk| {
      var n := if 0 < want then want else NetShort(chunk[0], chunk[1]);
      if 0 < n <= |chunk[off..]| {
        MessagesAreNonEmpty(0, chunk[off..][n..]);
        assert chunk[0..] == chunk;
      }
    }
  }

  lemma {:induction false} AllMessagesAreNonEmpty(want: nat, chunks: seq<Bytes>)
    ensures NonEmpty(TakeAll(want, chunks).msgs)
    decreases |chunks|
  {
    if chunks != [] {
      MessagesAreNonEmpty(want, chunks[0]);
      AllMessagesAreNonEmpty(Take(want, chunks[0]).want, chunks[1..]);
    }
  }

  /**
    For every list of payloads a sender can frame and every way of cutting its stream into
    chunks: the messages delivered are exactly the payloads, in order, if and only if no payload
    is empty and every cut falls at the start of a frame or just behind a length prefix.
   */
  lemma {:induction false} DecodesExactlyWhen(ps: seq<Bytes>, chunks: seq<Bytes>)
    requires Sendable(ps) && Flat(chunks) == Stream(ps)
    ensures TakeAll(0, chunks).msgs == ps <==> NonEmpty(ps) && CutsAligned(ps, 0, chunks)
    ensures TakeAll(0, chunks).msgs == ps ==> TakeAll(0, chunks).want == 0
  {
    AllMessagesAreNonEmpty(0, chunks);
    if NonEmpty(ps) { TakeAllInStep(0, ps, chunks); }
  }

  /** The smallest loss: a two-byte payload cut in the middle is never delivered. */
  lemma {:induction false} MidPayloadCutLoses()
    ensures Flat([[0, 2, 7], [8]]) == Stream([[7, 8]])
    ensures TakeAll(0, [[0, 2, 7], [8]]) == Taken(2, [])
  {
    assert Flat([[8]]) == [8] by { assert [[8]][1..] == []; }
    assert [[0, 2, 7], [8]][1..] == [[8]];
    assert Stream([[7, 8]]) == [0, 2, 7, 8] by { assert [[7, 8]][1..] == []; }
    assert Take(0, [0, 2, 7]) == TakeBody(2, [7]) by { assert [0, 2, 7][2..] == [7]; }
    assert TakeAll(2, [[8]]) == Taken(2, []) by {
      assert Take(2, [8]) == Taken(2, []);
      assert [[8]][1..] == [];
      assert TakeAll(2, []) == Taken(2, []);
    }
  }
}
