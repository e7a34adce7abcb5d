/** Splitting a packet into datagrams: internal/udp/fragment.go. */
module Fragmentation {
  import opened Words
  import opened UDPFrame

  const BUFFER_SIZE: nat := 2048

  // ---------------------------------------------------------------- the pieces of a packet

  /** ceil(len / max), and one datagram for the empty packet. */
  function PieceCount(len: nat, max: nat): (n: nat)
    requires max > 0
    ensures n > 0
  {
    if len == 0 then 1
    else
      CeilingBounds(len, max);
      (len + max - 1) / max
  }

  function Cap(x: nat, limit: nat): nat
  {
    if x > limit then limit else x
  }

  function Piece(packet: bytes, max: nat, i: nat): bytes
  {
    var start := Cap(i * max, |packet|);
    packet[start..Cap(start + max, |packet|)]
  }

  predicate Fits(len: nat, max: nat)
    requires max > 0
  {
    PieceCount(len, max) <= MAX_FRAGMENTS
  }

  /** A packet fits exactly if it is no longer than the fragments allowed can hold. */
  lemma FitsExactly(len: nat, max: nat)
    requires max > 0
    ensures Fits(len, max) <==> len <= MAX_FRAGMENTS * max
  {
    if len > 0 {
      CeilingBounds(len, max);
      var n := PieceCount(len, max);
      if n <= MAX_FRAGMENTS {
        TimesGrows(n, MAX_FRAGMENTS, max);
      } else {
        TimesGrows(MAX_FRAGMENTS, n - 1, max);
      }
    }
  }

  /** With the default payload every UDP packet fits. */
  lemma UDPPacketsFit(len: nat)
    requires len <= MAX_PACKET_SIZE
    ensures Fits(len, DEFAULT_MAX_PAYLOAD)
  {
    FitsExactly(len, DEFAULT_MAX_PAYLOAD);
  }

  function PieceHeader(sessionID: uint32, packetID: uint32, len: nat, max: nat, i: nat): Header
    requires max > 0 && Fits(len, max) && i < PieceCount(len, max)
  {
    Header(sessionID, packetID, i, PieceCount(len, max))
  }

  function Datagrams(sessionID: uint32, packetID: uint32, packet: bytes, max: nat): (ds: seq<bytes>)
    requires max > 0 && Fits(|packet|, max)
    ensures |ds| == PieceCount(|packet|, max)
  {
    seq(PieceCount(|packet|, max), i requires 0 <= i < PieceCount(|packet|, max) =>
      Encoded(PieceHeader(sessionID, packetID, |packet|, max, i), Piece(packet, max, i)))
  }

  lemma CeilingBounds(len: nat, max: nat)
    requires len > 0 && max > 0
    ensures var n := (len + max - 1) / max;
            n > 0 && (n - 1) * max < len <= n * max
  {
    var n, r := (len + max - 1) / max, (len + max - 1) % max;
    assert len + max - 1 == max * n + r;
    assert (n - 1) * max == max * n - max;
    assert n == 0 ==> max * n == 0;
  }

  // ---------------------------------------------------------------- the fragmenting loop

  datatype FragmentError = PacketTooLarge | HandlerFailed

  /** The callback that transmits one datagram; it succeeds on its first `capacity` calls. The
      datagram is copied because its buffer is reused for the next one. */
  class DatagramSink {
    const capacity: nat
    var sent: seq<bytes>

    constructor (capacity: nat)
      ensures sent == [] && this.capacity == capacity
    {
      this.capacity := capacity;
      sent := [];
    }

    method Handle(datagram: bytes) returns (ok: bool)
      modifies this
      ensures ok == (|old(sent)| < capacity)
      ensures sent == if ok then old(sent) + [datagram] else old(sent)
    {
      ok := |sent| < capacity;
      if ok {
        sent := sent + [datagram];
      }
    }
  }

  class Fragmenter {
    const maxPayload: nat

    constructor (maxPayload: int)
      ensures this.maxPayload == (if maxPayload <= 0 then DEFAULT_MAX_PAYLOAD else maxPayload)
      ensures this.maxPayload > 0
    {
      this.maxPayload := if maxPayload <= 0 then DEFAULT_MAX_PAYLOAD else maxPayload;
    }

    /** The empty packet is one datagram without payload. */
    method FragmentEmpty(sessionID: uint32, packetID: uint32, sink: DatagramSink) returns (error: Option<FragmentError>)
      requires maxPayload > 0 && sink.sent == []
      modifies sink
      ensures var ds := Datagrams(sessionID, packetID, [], maxPayload);
              && error == (if sink.capacity < |ds| then Some(HandlerFailed) else None)
              && sink.sent == ds[..Cap(|ds|, sink.capacity)]
    {
      var buf := new uint8[BUFFER_SIZE](_ => 0);
      var encoded, n := EncodeUDP(buf, Header(sessionID, packetID, 0, 1), []);
      assert encoded[..n] == Datagrams(sessionID, packetID, [], maxPayload)[0];
      var sent := sink.Handle(encoded[..n]);
      return if sent then None else Some(HandlerFailed);
    }

    /** Sends the datagrams of the packet in order, one pooled buffer for all of them, and stops
        at the first one the handler refuses. A packet that needs too many sends nothing. */
    method Fragment(sessionID: uint32, packetID: uint32, packet: bytes, sink: DatagramSink)
      returns (error: Option<FragmentError>)
      requires maxPayload > 0 && sink.sent == []
      modifies sink
      ensures !Fits(|packet|, maxPayload) ==> error == Some(PacketTooLarge) && sink.sent == []
      ensures Fits(|packet|, maxPayload) ==>
                var ds := Datagrams(sessionID, packetID, packet, maxPayload);
                && error == (if sink.capacity < |ds| then Some(HandlerFailed) else None)
                && sink.sent == ds[..Cap(|ds|, sink.capacity)]
    {
      var packetLen := |packet|;
      if packetLen == 0 {
        error := FragmentEmpty(sessionID, packetID, sink);
        return;
      }

      CeilingBounds(packetLen, maxPayload);
      var numFrags := (packetLen + maxPayload - 1) / maxPayload;
      if numFrags > MAX_FRAGMENTS {
        return Some(PacketTooLarge);
      }
      ghost var ds := Datagrams(sessionID, packetID, packet, maxPayload);
      var buf := new uint8[BUFFER_SIZE](_ => 0);
      for i := 0 to numFrags
        invariant i <= sink.capacity
        invariant sink.sent == ds[..i]
      {
        var start := i * maxPayload;
        PieceStart(packetLen, maxPayload, i);
        var end := start + maxPayload;
        if end > packetLen {
          end := packetLen;
        }
        var chunk := packet[start..end];
        var encoded, n := EncodeUDP(buf, Header(sessionID, packetID, i, numFrags), chunk);
        assert encoded[..n] == ds[i];
        var ok := sink.Handle(encoded[..n]);
        if !ok {
          return Some(HandlerFailed);
        }
        assert ds[..i + 1] == ds[..i] + [ds[i]];
      }
      return None;
    }
  }

  lemma {:induction false} TimesGrows(a: nat, b: nat, m: nat)
    requires a <= b
    ensures a * m <= b * m
    decreases b - a
  {
    if a < b {
      assert (a + 1) * m == a * m + m;
      TimesGrows(a + 1, b, m);
    }
  }

  lemma PieceStart(len: nat, max: nat, i: nat)
    requires len > 0 && max > 0 && i < PieceCount(len, max)
    ensures i * max < len
  {
    CeilingBounds(len, max);
    TimesGrows(i, PieceCount(len, max) - 1, max);
  }

  // ---------------------------------------------------------------- the pieces make up the packet

  function Pieces(packet: bytes, max: nat): (ps: seq<bytes>)
    requires max > 0
    ensures |ps| == PieceCount(|packet|, max)
  {
    seq(PieceCount(|packet|, max), i requires 0 <= i => Piece(packet, max, i))
  }

  lemma NextPiece(packet: bytes, max: nat, i: nat)
    ensures packet[..Cap((i + 1) * max, |packet|)] == packet[..Cap(i * max, |packet|)] + Piece(packet, max, i)
  {
    var start := i * max;
    assert (i + 1) * max == start + max;
  }

  lemma {:induction false} JoinedPrefix(packet: bytes, max: nat, k: nat)
    requires max > 0 && k <= PieceCount(|packet|, max)
    ensures Joined(Pieces(packet, max)[..k]) == packet[..Cap(k * max, |packet|)]
  {
    if k == 0 {
      assert 0 * max == 0;
    } else {
      var ps := Pieces(packet, max);
      JoinedPrefix(packet, max, k - 1);
      assert ps[..k] == ps[..k - 1] + [ps[k - 1]];
      JoinedAppend(ps[..k - 1], ps[k - 1]);
      NextPiece(packet, max, k - 1);
    }
  }

  /** The pieces, in order, are the packet: nothing is lost, repeated or reordered. */
  lemma PiecesMakeUpPacket(packet: bytes, max: nat)
    requires max > 0
    ensures Joined(Pieces(packet, max)) == packet
  {
    var n := PieceCount(|packet|, max);
    JoinedPrefix(packet, max, n);
    assert Pieces(packet, max)[..n] == Pieces(packet, max);
    if packet != [] {
      CeilingBounds(|packet|, max);
    }
  }

  /** Every datagram decodes to the header and the piece it was made from. */
  lemma DatagramsDecode(sessionID: uint32, packetID: uint32, packet: bytes, max: nat, i: nat)
    requires max > 0 && Fits(|packet|, max) && i < PieceCount(|packet|, max)
    ensures DecodeUDP(Datagrams(sessionID, packetID, packet, max)[i])
         == Ok((PieceHeader(sessionID, packetID, |packet|, max, i), Piece(packet, max, i)))
  {
    DecodesExactlyEncodings(Datagrams(sessionID, packetID, packet, max)[i],
                            PieceHeader(sessionID, packetID, |packet|, max, i), Piece(packet, max, i));
  }

  /** No piece exceeds the configured payload, all but the last are full, and only the empty packet
      has an empty piece. */
  lemma PieceSizes(packet: bytes, max: nat, i: nat)
    requires max > 0 && i < PieceCount(|packet|, max)
    ensures |Piece(packet, max, i)| <= max
    ensures i + 1 < PieceCount(|packet|, max) ==> |Piece(packet, max, i)| == max
    ensures packet != [] ==> Piece(packet, max, i) != []
  {
    if packet != [] {
      PieceStart(|packet|, max, i);
      if i + 1 < PieceCount(|packet|, max) {
        PieceStart(|packet|, max, i + 1);
        assert (i + 1) * max == i * max + max;
      }
    }
  }
}
