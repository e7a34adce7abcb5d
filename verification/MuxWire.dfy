/** Frames on the shared byte wire of internal/transport/tlsmux/tlsmux.go: how a frame is built
    and written, how it is parsed, and why parsing undoes writing. */
module MuxWire {
  import opened Words

  const OPEN: uint8 := 1
  const DATA: uint8 := 2
  const CLOSE: uint8 := 3
  const DATAGRAM: uint8 := 4

  const FRAME_HEADER_SIZE: nat := 9
  const MAX_FRAME_PAYLOAD: nat := 0x1_0000
  const MAX_WRITE_CHUNK: nat := 0x4000

  datatype Frame = Frame(kind: uint8, streamID: uint32, payload: bytes)

  predicate Fitting(f: Frame)
  {
    |f.payload| <= MAX_FRAME_PAYLOAD
  }

  function FrameHeader(f: Frame): (b: bytes)
    requires Fitting(f)
    ensures |b| == FRAME_HEADER_SIZE
  {
    [f.kind] + PutUint32(f.streamID) + PutUint32(|f.payload|)
  }

  function FrameBytes(f: Frame): (b: bytes)
    requires Fitting(f)
    ensures |b| == FRAME_HEADER_SIZE + |f.payload|
  {
    FrameHeader(f) + f.payload
  }

  predicate AllFitting(fs: seq<Frame>)
  {
    forall i :: 0 <= i < |fs| ==> Fitting(fs[i])
  }

  /** The bytes of a sequence of whole frames. */
  function Wire(fs: seq<Frame>): bytes
    requires AllFitting(fs)
  {
    if fs == [] then [] else FrameBytes(fs[0]) + Wire(fs[1..])
  }

  lemma {:induction false} WireAppend(fs: seq<Frame>, gs: seq<Frame>)
    requires AllFitting(fs) && AllFitting(gs)
    ensures Wire(fs + gs) == Wire(fs) + Wire(gs)
  {
    if fs == [] {
      assert fs + gs == gs;
    } else {
      assert (fs + gs)[1..] == fs[1..] + gs;
      WireAppend(fs[1..], gs);
    }
  }

  // ---------------------------------------------------------------- parsing

  datatype ParsedHeader = ParsedHeader(kind: uint8, streamID: uint32, length: uint32)

  function ParseHeader(b: bytes): ParsedHeader
    requires |b| == FRAME_HEADER_SIZE
  {
    ParsedHeader(b[0], GetUint32(b[1..5]), GetUint32(b[5..9]))
  }

  lemma ParseHeaderOfFrame(f: Frame, rest: bytes)
    requires Fitting(f)
    ensures var b := FrameHeader(f) + rest;
            ParseHeader(b[..FRAME_HEADER_SIZE]) == ParsedHeader(f.kind, f.streamID, |f.payload|)
  {
    var h := FrameHeader(f);
    assert (h + rest)[..FRAME_HEADER_SIZE] == h;
    assert h[1..5] == PutUint32(f.streamID) && h[5..9] == PutUint32(|f.payload|);
    GetPut(f.streamID);
    GetPut(|f.payload|);
  }

  /** The reader's loop over the bytes received so far: the whole frames and what is left over. */
  function Parse(b: bytes): (seq<Frame>, bytes)
    decreases |b|
  {
    if |b| < FRAME_HEADER_SIZE then ([], b)
    else
      var h := ParseHeader(b[..FRAME_HEADER_SIZE]);
      if h.length > MAX_FRAME_PAYLOAD || |b| < FRAME_HEADER_SIZE + h.length then ([], b)
      else
        var end := FRAME_HEADER_SIZE + h.length;
        var (fs, rest) := Parse(b[end..]);
        ([Frame(h.kind, h.streamID, b[FRAME_HEADER_SIZE..end])] + fs, rest)
  }

  /** The torn end of a wire: a proper prefix of some frame, possibly nothing. */
  ghost predicate Torn(b: bytes)
  {
    exists f :: Fitting(f) && |b| < |FrameBytes(f)| && b == FrameBytes(f)[..|b|]
  }

  lemma ParseOfTorn(b: bytes)
    requires Torn(b)
    ensures Parse(b) == ([], b)
  {
    var f :| Fitting(f) && |b| < |FrameBytes(f)| && b == FrameBytes(f)[..|b|];
    if |b| >= FRAME_HEADER_SIZE {
      ParseHeaderOfFrame(f, f.payload);
      assert b[..FRAME_HEADER_SIZE] == FrameBytes(f)[..FRAME_HEADER_SIZE];
    }
  }

  lemma ParseOfFrame(f: Frame, rest: bytes)
    requires Fitting(f)
    ensures Parse(FrameBytes(f) + rest) == ([f] + Parse(rest).0, Parse(rest).1)
  {
    var b := FrameBytes(f) + rest;
    assert b == FrameHeader(f) + (f.payload + rest);
    ParseHeaderOfFrame(f, f.payload + rest);
    var end := FRAME_HEADER_SIZE + |f.payload|;
    assert b[end..] == rest && b[FRAME_HEADER_SIZE..end] == f.payload;
  }

  /** Parsing recovers exactly the frames written, whatever their payloads contain, and stops at
      the torn end. */
  lemma {:induction false} ParseRecoversFrames(fs: seq<Frame>, torn: bytes)
    requires AllFitting(fs) && Torn(torn)
    ensures Parse(Wire(fs) + torn) == (fs, torn)
    decreases |fs|
  {
    if fs == [] {
      assert Wire(fs) + torn == torn;
      ParseOfTorn(torn);
    } else {
      var rest := Wire(fs[1..]) + torn;
      assert Wire(fs) + torn == FrameBytes(fs[0]) + rest;
      ParseRecoversFrames(fs[1..], torn);
      ParseOfFrame(fs[0], rest);
      assert [fs[0]] + fs[1..] == fs;
    }
  }

  // ---------------------------------------------------------------- writing

  /** The connection below the mux. A write may be accepted in part; a write that fails, or that
      accepts nothing, leaves the record layer unusable, and every later write sends nothing.
      `limit` is how many bytes the connection takes in all before it fails, if it ever does. */
  class Conn {
    const limit: Option<nat>
    var wire: bytes
    var broken: bool

    constructor (limit: Option<nat>)
      ensures wire == [] && !broken && this.limit == limit
    {
      this.limit, wire, broken := limit, [], false;
    }

    /** The connection lives to take so many more bytes. */
    predicate Takes(n: nat)
      reads this
    {
      !broken && (limit.None? || |wire| + n <= limit.value)
    }

    function Room(n: nat): (room: nat)
      reads this
      ensures room <= n
    {
      if broken then 0
      else if Takes(n) then n
      else if |wire| <= limit.value then limit.value - |wire|
      else 0
    }

    method Write(data: bytes) returns (n: nat, ok: bool)
      requires data != []
      modifies this
      ensures n <= |data| && wire == old(wire) + data[..n]
      ensures broken == (old(broken) || !ok || n == 0)
      ensures !ok ==> n < |data|
      ensures old(broken) ==> n == 0
      ensures old(Takes(|data|)) ==> ok && n > 0
      ensures n > 0 ==> old(Takes(n))
    {
      var room := Room(|data|);
      ok := *;
      if room == 0 {
        n, ok := 0, ok && !broken;
      } else {
        n :| 1 <= n <= room;
        ok := ok || n < room || room == |data|;
      }
      wire := wire + data[..n];
      broken := broken || !ok || n == 0;
    }
  }

  /** Writes all of data unless the connection fails first. */
  method WriteAll(conn: Conn, data: bytes) returns (total: nat, ok: bool)
    modifies conn
    ensures total <= |data| && conn.wire == old(conn.wire) + data[..total]
    ensures (ok <==> total == |data|) && (ok <==> data == [] || old(conn.Takes(|data|)))
    ensures conn.broken == (old(conn.broken) || !ok)
  {
    total := 0;
    var rest := data;
    while |rest| > 0
      invariant total <= |data| && rest == data[total..]
      invariant conn.wire == old(conn.wire) + data[..total]
      invariant conn.broken == old(conn.broken) && (conn.broken ==> total == 0)
      invariant total > 0 ==> old(conn.Takes(total))
      decreases |rest|
    {
      var n, accepted := conn.Write(rest);
      assert data[..total] + rest[..n] == data[..total + n];
      total := total + n;
      rest := rest[n..];
      if !accepted {
        return total, false;
      }
      if n == 0 {
        return total, false;
      }
    }
    ok := true;
  }

  datatype WriteError = BadFrame | NotGranted | ConnFailed

  /** The sending half of a session: the connection and the token that serialises its frames. */
  class FrameWriter {
    const conn: Conn
    /** Whether the write token lies in its channel. */
    var token: bool

    constructor (conn: Conn)
      ensures this.conn == conn && token
    {
      this.conn, token := conn, true;
    }

    /** Waits for the token and writes one frame. A cancellation, a deadline or the end of the
        session may interrupt the wait, and does if another writer keeps the token. A token taken
        is always put back. */
    method WriteFrame(f: Frame, interrupted: bool) returns (error: Option<WriteError>)
      modifies this, conn
      ensures token == old(token)
      ensures error == Some(BadFrame) <==> !Fitting(f)
      ensures error == Some(NotGranted) ==> !token || interrupted
      ensures Fitting(f) && !token ==> error == Some(NotGranted)
      ensures error == Some(ConnFailed) ==> Fitting(f) && !old(conn.Takes(|FrameBytes(f)|))
      ensures error.None? ==>
                && Fitting(f) && token && old(conn.Takes(|FrameBytes(f)|))
                && conn.wire == old(conn.wire) + FrameBytes(f) && conn.broken == old(conn.broken)
      ensures error.Some? && !error.value.ConnFailed? ==>
                conn.wire == old(conn.wire) && conn.broken == old(conn.broken)
      ensures error.Some? && error.value.ConnFailed? ==>
                && conn.broken
                && exists k :: 0 <= k < |FrameBytes(f)| && conn.wire == old(conn.wire) + FrameBytes(f)[..k]
    {
      if |f.payload| > MAX_FRAME_PAYLOAD {
        return Some(BadFrame);
      }
      var granted: bool := *;
      if !token || (interrupted && !granted) {
        return Some(NotGranted);
      }
      token := false;
      var total, ok := WriteAll(conn, FrameBytes(f));
      token := true;
      return if ok then None else Some(ConnFailed);
    }
  }
}
