/** The 12-byte datagram header of internal/protocol/udp.go and the authenticated envelope of
    internal/protocol/p2p_data.go. */
module UDPFrame {
  import opened Words

  const VERSION: uint8 := 1
  const HEADER_SIZE: nat := 12
  const TYPE_DATA: uint8 := 0x11
  const DEFAULT_MAX_PAYLOAD: nat := 1150
  const MAX_FRAGMENTS: nat := 64
  const MAX_PACKET_SIZE: nat := 65535

  /** The variable part of a header; version and type have one legal value each. */
  datatype Header = Header(sessionID: uint32, packetID: uint32, fragmentID: uint8, fragmentCount: uint8)

  datatype FrameError = TooShort | UnsupportedVersion | UnsupportedType | InvalidFragment

  predicate ValidFragment(h: Header)
  {
    h.fragmentCount != 0 && h.fragmentID < h.fragmentCount && h.fragmentCount <= MAX_FRAGMENTS
  }

  // ---------------------------------------------------------------- the plain frame

  function HeaderBytes(h: Header): (b: bytes)
    ensures |b| == HEADER_SIZE
  {
    [VERSION, TYPE_DATA] + PutUint32(h.sessionID) + PutUint32(h.packetID) + [h.fragmentID, h.fragmentCount]
  }

  function Encoded(h: Header, payload: bytes): bytes
  {
    HeaderBytes(h) + payload
  }

  function Splice(s: bytes, at: nat, data: bytes): bytes
    requires at + |data| <= |s|
  {
    s[..at] + data + s[at + |data|..]
  }

  /** copy(dst[at:], data). */
  method PutBytes(dst: array<uint8>, at: nat, data: bytes)
    requires at + |data| <= dst.Length
    modifies dst
    ensures dst[..] == Splice(old(dst[..]), at, data)
  {
    forall i | 0 <= i < |data| {
      dst[at + i] := data[i];
    }
  }

  /** Writes the frame into dst when its capacity suffices and into a new buffer otherwise. */
  method EncodeUDP(dst: array<uint8>, h: Header, payload: bytes) returns (out: array<uint8>, n: nat)
    modifies dst
    ensures n == HEADER_SIZE + |payload| <= out.Length
    ensures out[..n] == Encoded(h, payload)
    ensures dst.Length >= n ==> out == dst && out[n..] == old(dst[n..])
    ensures dst.Length < n ==> fresh(out) && out.Length == n && dst[..] == old(dst[..])
  {
    n := HEADER_SIZE + |payload|;
    if dst.Length >= n {
      out := dst;
    } else {
      out := new uint8[n](_ => 0);
    }
    PutBytes(out, 0, HeaderBytes(h));
    PutBytes(out, HEADER_SIZE, payload);
  }

  function DecodeUDP(data: bytes): Result<(Header, bytes), FrameError>
  {
    if |data| < HEADER_SIZE then Err(TooShort)
    else if data[0] != VERSION then Err(UnsupportedVersion)
    else if data[1] != TYPE_DATA then Err(UnsupportedType)
    else
      var h := Header(GetUint32(data[2..6]), GetUint32(data[6..10]), data[10], data[11]);
      if ValidFragment(h) then Ok((h, data[HEADER_SIZE..])) else Err(InvalidFragment)
  }

  /** Parsing is exact: the parser accepts a datagram as (h, payload) if and only if it is the
      encoding of that pair and its fragment numbers are legal. */
  lemma DecodesExactlyEncodings(data: bytes, h: Header, payload: bytes)
    ensures DecodeUDP(data) == Ok((h, payload)) <==> ValidFragment(h) && data == Encoded(h, payload)
  {
    if DecodeUDP(data) == Ok((h, payload)) {
      PutGet(data[2..6]);
      PutGet(data[6..10]);
      assert data == data[..2] + data[2..6] + data[6..10] + data[10..12] + data[12..];
    }
    if data == Encoded(h, payload) {
      assert data[2..6] == PutUint32(h.sessionID);
      assert data[6..10] == PutUint32(h.packetID);
      assert data[HEADER_SIZE..] == payload;
      GetPut(h.sessionID);
      GetPut(h.packetID);
    }
  }

  /** Illegal fragment numbers never get through, whoever encoded them. */
  lemma IllegalFragmentRejected(h: Header, payload: bytes)
    ensures !ValidFragment(h) <==> DecodeUDP(Encoded(h, payload)) == Err(InvalidFragment)
  {
    var data := Encoded(h, payload);
    assert data[2..6] == PutUint32(h.sessionID);
    assert data[6..10] == PutUint32(h.packetID);
    GetPut(h.sessionID);
    GetPut(h.packetID);
  }

  // ---------------------------------------------------------------- the authenticated frame

  const P2P_MAGIC: uint32 := 0x5244_5044
  const MAC_SIZE: nat := 16
  const P2P_HEADER_SIZE: nat := 24

  /** Punch and keepalive packets share the socket with sealed datagrams. */
  const PUNCH_MAGIC: uint32 := 0x5244_5055
  const PUNCH_PACKET_SIZE: nat := 40

  type Digest = d: bytes | |d| == 32 witness seq(32, _ => 0)

  /** A session's codec; mac is the keyed hash, about which nothing is assumed. */
  datatype P2PCodec = P2PCodec(sessionID: uint32, mac: bytes -> Digest)

  datatype P2PError = P2PTooShort | P2PBadMagic | P2PBadSession | P2PBadMAC

  function Tag(c: P2PCodec, datagram: bytes): (t: bytes)
    ensures |t| == MAC_SIZE
  {
    c.mac(PutUint32(P2P_MAGIC) + PutUint32(c.sessionID) + datagram)[..MAC_SIZE]
  }

  function Sealed(c: P2PCodec, datagram: bytes): bytes
  {
    PutUint32(P2P_MAGIC) + PutUint32(c.sessionID) + Tag(c, datagram) + datagram
  }

  function Opened(c: P2PCodec, packet: bytes): Result<bytes, P2PError>
  {
    if |packet| < P2P_HEADER_SIZE then Err(P2PTooShort)
    else if GetUint32(packet[0..4]) != P2P_MAGIC then Err(P2PBadMagic)
    else if GetUint32(packet[4..8]) != c.sessionID then Err(P2PBadSession)
    else
      var datagram := packet[P2P_HEADER_SIZE..];
      if packet[8..P2P_HEADER_SIZE] == c.mac(packet[0..8] + datagram)[..MAC_SIZE] then Ok(datagram)
      else Err(P2PBadMAC)
  }

  /** A packet opens to a datagram if and only if it is the sealing of that datagram under the
      receiver's own session and key: nothing outside the tag is malleable. */
  lemma OpensExactlySealed(c: P2PCodec, packet: bytes, datagram: bytes)
    ensures Opened(c, packet) == Ok(datagram) <==> packet == Sealed(c, datagram)
  {
    if Opened(c, packet) == Ok(datagram) {
      PutGet(packet[0..4]);
      PutGet(packet[4..8]);
      assert packet[0..8] == packet[0..4] + packet[4..8];
      assert packet == packet[0..4] + packet[4..8] + packet[8..24] + packet[24..];
    }
    if packet == Sealed(c, datagram) {
      GetPut(P2P_MAGIC);
      GetPut(c.sessionID);
      assert packet[0..4] == PutUint32(P2P_MAGIC);
      assert packet[4..8] == PutUint32(c.sessionID);
      assert packet[8..24] == Tag(c, datagram);
      assert packet[24..] == datagram;
      assert packet[0..8] == PutUint32(P2P_MAGIC) + PutUint32(c.sessionID);
    }
  }
}
