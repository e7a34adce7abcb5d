/** One stream of the mux: Read drains queued frames with partial copies, Write cuts its data into
    frames (internal/transport/tlsmux/tlsmux.go). */
module MuxStreams {
  import opened Words
  import opened MuxWire

  // ---------------------------------------------------------------- cutting data into frames

  /** Where the last chunk of so many bytes begins. */
  function LastCut(len: nat): (cut: nat)
    requires len > 0
    ensures cut < len <= cut + MAX_WRITE_CHUNK
  {
    (len - 1) / 0x4000 * 0x4000
  }

  /** The data frames of one Write: full chunks and a last one that may be shorter. */
  function Chunks(id: uint32, data: bytes): seq<Frame>
    decreases |data|
  {
    if data == [] then []
    else
      var cut := LastCut(|data|);
      Chunks(id, data[..cut]) + [Frame(DATA, id, data[cut..])]
  }

  predicate IsDataFrame(f: Frame, id: uint32)
  {
    f.kind == DATA && f.streamID == id && 0 < |f.payload| <= MAX_WRITE_CHUNK
  }

  function Payloads(fs: seq<Frame>): bytes
  {
    if fs == [] then [] else fs[0].payload + Payloads(fs[1..])
  }

  lemma {:induction false} PayloadsAppend(fs: seq<Frame>, f: Frame)
    ensures Payloads(fs + [f]) == Payloads(fs) + f.payload
  {
    if fs == [] {
      assert Payloads([f]) == f.payload + Payloads([]);
    } else {
      assert (fs + [f])[1..] == fs[1..] + [f];
      PayloadsAppend(fs[1..], f);
    }
  }

  /** The chunks carry the data in order, each within the bound that keeps one stream from
      holding up the others. */
  lemma {:induction false} ChunksCarryData(id: uint32, data: bytes)
    ensures Payloads(Chunks(id, data)) == data
    ensures forall i :: 0 <= i < |Chunks(id, data)| ==> IsDataFrame(Chunks(id, data)[i], id)
    ensures AllFitting(Chunks(id, data))
    decreases |data|
  {
    if data != [] {
      var cut := LastCut(|data|);
      ChunksCarryData(id, data[..cut]);
      PayloadsAppend(Chunks(id, data[..cut]), Frame(DATA, id, data[cut..]));
      assert data[..cut] + data[cut..] == data;
    }
  }

  /** The bytes that a Write of the data puts on the wire. */
  function ChunkWire(id: uint32, data: bytes): bytes
  {
    ChunksCarryData(id, data);
    Wire(Chunks(id, data))
  }

  lemma NoChunks(id: uint32, data: bytes)
    ensures ChunkWire(id, data[..0]) == []
  {
    assert data[..0] == [];
  }

  /** How many bytes so much data makes on the wire: itself, and a header for every 16 KiB begun. */
  function WireSize(len: nat): nat
  {
    len + FRAME_HEADER_SIZE * ((len + 0x3FFF) / 0x4000)
  }

  lemma {:induction false} ChunkWireSize(id: uint32, data: bytes)
    ensures |ChunkWire(id, data)| == WireSize(|data|)
    decreases |data|
  {
    if data != [] {
      var cut := LastCut(|data|);
      ChunkWireSize(id, data[..cut]);
      ChunksCarryData(id, data[..cut]);
      WireAppend(Chunks(id, data[..cut]), [Frame(DATA, id, data[cut..])]);
      assert Wire([Frame(DATA, id, data[cut..])]) == FrameBytes(Frame(DATA, id, data[cut..])) + Wire([]);
      HeadersBefore(|data|);
    }
  }

  lemma HeadersBefore(len: nat)
    requires len > 0
    ensures (len + 0x3FFF) / 0x4000 == (LastCut(len) + 0x3FFF) / 0x4000 + 1
  {
    var q := (len - 1) / 0x4000;
    assert LastCut(len) == 0x4000 * q;
  }

  /** The next chunk, like those before it, is within the size of the whole. */
  lemma WireSoFar(id: uint32, data: bytes, total: nat, size: nat)
    requires total % MAX_WRITE_CHUNK == 0 && total + size <= |data| && 0 < size <= MAX_WRITE_CHUNK
    ensures |ChunkWire(id, data[..total])| + FRAME_HEADER_SIZE + size <= WireSize(|data|)
  {
    ChunkWireSize(id, data[..total]);
    var q := total / 0x4000;
    assert total == 0x4000 * q;
    assert (total + 0x3FFF) / 0x4000 == q && (|data| + 0x3FFF) / 0x4000 >= q + 1;
  }

  /** The wire holds exactly these whole frames, or a torn frame follows and the connection is lost. */
  ghost predicate TornAfter(wire: bytes, whole: bytes, broken: bool)
  {
    wire == whole || (broken && exists torn :: Torn(torn) && wire == whole + torn)
  }

  lemma CutAtBoundary(total: nat, size: nat)
    requires total % MAX_WRITE_CHUNK == 0 && 0 < size <= MAX_WRITE_CHUNK
    ensures LastCut(total + size) == total
  {
    var q := total / 0x4000;
    assert total == 0x4000 * q;
    assert total + size - 1 == 0x4000 * q + (size - 1);
  }

  lemma NextChunk(id: uint32, data: bytes, total: nat, size: nat)
    requires total % MAX_WRITE_CHUNK == 0 && total + size <= |data| && 0 < size <= MAX_WRITE_CHUNK
    ensures ChunkWire(id, data[..total + size])
         == ChunkWire(id, data[..total]) + FrameBytes(Frame(DATA, id, data[total..total + size]))
  {
    var d, f := data[..total + size], Frame(DATA, id, data[total..total + size]);
    CutAtBoundary(total, size);
    assert d[..total] == data[..total] && d[total..] == f.payload;
    assert Chunks(id, d) == Chunks(id, d[..total]) + [f];
    ChunksCarryData(id, d[..total]);
    WireAppend(Chunks(id, d[..total]), [f]);
    assert Wire([f]) == FrameBytes(f) + Wire([]);
  }

  lemma NextBoundary(total: nat)
    requires total % MAX_WRITE_CHUNK == 0
    ensures (total + MAX_WRITE_CHUNK) % MAX_WRITE_CHUNK == 0
  {
    var q := total / 0x4000;
    assert total == 0x4000 * q;
    assert total + 0x4000 == 0x4000 * (q + 1);
  }

  // ---------------------------------------------------------------- what a Read does

  /** The current frame and the queue once empty frames are passed over. */
  function NextToRead(current: bytes, queue: seq<bytes>): (bytes, seq<bytes>)
    decreases |queue|
  {
    if current != [] || queue == [] then (current, queue) else NextToRead(queue[0], queue[1..])
  }

  function HowMany(size: nat, current: bytes): nat
  {
    if size < |current| then size else |current|
  }

  /** The bytes that a Read with room for so many returns, and the current frame and queue after it. */
  function ReadStep(current: bytes, queue: seq<bytes>, size: nat): (bytes, bytes, seq<bytes>)
  {
    var (head, rest) := NextToRead(current, queue);
    var n := HowMany(size, head);
    (head[..n], head[n..], rest)
  }

  lemma {:induction false} NextKeepsBytes(current: bytes, queue: seq<bytes>)
    ensures var (head, rest) := NextToRead(current, queue); head + Joined(rest) == current + Joined(queue)
    ensures NextToRead(current, queue).0 == [] ==> NextToRead(current, queue).1 == []
    decreases |queue|
  {
    if current == [] && queue != [] {
      NextKeepsBytes(queue[0], queue[1..]);
    }
  }

  /** Passing over empty frames early or late makes no difference. */
  lemma PassedOver(current: bytes, queue: seq<bytes>, before: bytes, whole: seq<bytes>)
    requires NextToRead(current, queue) == NextToRead(before, whole)
    ensures current + Joined(queue) == before + Joined(whole)
  {
    NextKeepsBytes(current, queue);
    NextKeepsBytes(before, whole);
  }

  /** A Read loses, repeats and moves no byte, leaves none of a frame that would have fitted, and
      returns none only if there is none or no room. */
  lemma ReadKeepsBytes(current: bytes, queue: seq<bytes>, size: nat)
    ensures var (out, rest, left) := ReadStep(current, queue, size);
            && out + (rest + Joined(left)) == current + Joined(queue)
            && |out| <= size && (out == [] ==> size == 0 || current + Joined(queue) == [])
            && (rest != [] ==> |out| == size)
  {
    NextKeepsBytes(current, queue);
    var (head, tail) := NextToRead(current, queue);
    var n := HowMany(size, head);
    assert head == head[..n] + head[n..];
    Reassociate(head[..n], head[n..], Joined(tail));
  }

  // ---------------------------------------------------------------- the stream

  datatype WriteResult = Written | ClosedHere | ClosedByPeer | WriteFailed(error: WriteError)

  datatype ReadResult = Copied | EndOfFile | StreamClosed | TimedOut | StillWaiting

  /** What comes while a Read waits: the frames the reader loop queues, and whether the deadline
      passes or the session ends. */
  datatype Waiting = Waiting(arrivals: seq<bytes>, timesOut: bool, sessionOver: bool)

  class MuxStream {
    const id: uint32
    const writer: FrameWriter
    var incoming: seq<bytes>
    var current: bytes
    var localDone: bool
    var remoteDone: bool

    constructor (id: uint32, writer: FrameWriter)
      ensures this.id == id && this.writer == writer
      ensures incoming == [] && current == [] && !localDone && !remoteDone
    {
      this.id, this.writer := id, writer;
      incoming, current, localDone, remoteDone := [], [], false, false;
    }

    /** A wait ends without bytes only for this reason, and goes on only if there is no such reason. */
    predicate ExplainedBy(result: ReadResult, w: Waiting)
      reads this
    {
      match result
      case Copied => false
      case EndOfFile => remoteDone
      case StreamClosed => localDone || w.sessionOver
      case TimedOut => w.timesOut
      case StillWaiting => !remoteDone && !localDone && !w.sessionOver && !w.timesOut
    }

    /** Waits with an empty queue. The select may pick any case that is ready, so the end of the
        stream can be reported over a frame that was queued meanwhile. */
    method Select(w: Waiting) returns (ended: Option<ReadResult>, late: seq<bytes>)
      requires current == [] && incoming == []
      modifies this`incoming, this`current
      ensures NextToRead(current, incoming + late) == NextToRead([], w.arrivals)
      ensures if ended.None? then incoming == [] && |late| < |w.arrivals| else current == []
      ensures ended.Some? ==> ExplainedBy(ended.value, w)
      ensures ended == Some(StillWaiting) ==> incoming + late == []
    {
      late := w.arrivals;
      if late != [] {
        assert [late[0]] + late[1..] == late;
        incoming, late := [late[0]], late[1..];
      }
      var choice: int := *;
      if choice == 0 && remoteDone {
        return Some(EndOfFile), late;
      }
      if choice == 1 && (localDone || w.sessionOver) {
        return Some(StreamClosed), late;
      }
      if choice == 2 && w.timesOut {
        return Some(TimedOut), late;
      }
      if incoming != [] {
        current, incoming := incoming[0], [];
        assert incoming + late == w.arrivals[1..];
        return None, late;
      }
      ended := Some(if remoteDone then EndOfFile else if localDone || w.sessionOver then StreamClosed
                    else if w.timesOut then TimedOut else StillWaiting);
    }

    /** Waits until the current frame has bytes to read. The queue is polled before anything else.
        `late` are the frames not queued yet when the wait ends. */
    method AwaitBytes(w: Waiting) returns (ended: Option<ReadResult>, late: seq<bytes>)
      modifies this`incoming, this`current
      ensures ended == None <==> current != []
      ensures ended.Some? ==> ExplainedBy(ended.value, w)
      ensures ended == Some(StillWaiting) ==> NextToRead(current, incoming + late) == ([], [])
      ensures NextToRead(current, incoming + late) == NextToRead(old(current), old(incoming) + w.arrivals)
      ensures NextToRead(old(current), old(incoming)).0 != [] ==>
                late == w.arrivals && (current, incoming) == NextToRead(old(current), old(incoming))
    {
      late := w.arrivals;
      while |current| == 0
        invariant NextToRead(current, incoming + late) == NextToRead(old(current), old(incoming) + w.arrivals)
        invariant NextToRead(old(current), old(incoming)).0 != [] ==>
                    late == w.arrivals && NextToRead(current, incoming) == NextToRead(old(current), old(incoming))
        decreases |late|, |incoming|, |current| == 0
      {
        if incoming != [] {
          assert (incoming + late)[1..] == incoming[1..] + late;
          current, incoming := incoming[0], incoming[1..];
        } else {
          assert incoming + late == late;
          ended, late := Select(w.(arrivals := late));
          if ended.Some? {
            return;
          }
        }
      }
      return None, late;
    }

    /** Copies what fits of the current frame and keeps the rest. */
    method CopyOut(dst: array<uint8>) returns (n: nat)
      modifies this`current, dst
      ensures n == if dst.Length < |old(current)| then dst.Length else |old(current)|
      ensures dst[..n] == old(current)[..n] && current == old(current)[n..]
      ensures dst[n..] == old(dst[n..])
    {
      n := if dst.Length < |current| then dst.Length else |current|;
      forall i | 0 <= i < n {
        dst[i] := current[i];
      }
      current := current[n..];
    }

    /** Returns bytes that are there at once, as many as fit of the first frame that has any; else
        those that arrive while it waits. What Read returns, and what it leaves, is what was pending
        and what arrived: no byte is lost, repeated or moved, whether the call succeeds or not. */
    method Read(dst: array<uint8>, w: Waiting) returns (n: nat, result: ReadResult, late: seq<bytes>)
      modifies this`incoming, this`current, dst
      ensures n <= dst.Length && dst[n..] == old(dst[n..])
      ensures dst[..n] + (current + Joined(incoming + late)) == old(current) + Joined(old(incoming) + w.arrivals)
      ensures n > 0 ==>
                (dst[..n], current, incoming + late) == ReadStep(old(current), old(incoming) + w.arrivals, dst.Length)
      ensures var there := NextToRead(old(current), old(incoming)).0;
              dst.Length > 0 && there != [] ==>
                result == Copied && late == w.arrivals && n == if dst.Length < |there| then dst.Length else |there|
      ensures result == Copied <==> n > 0 || dst.Length == 0
      ensures result != Copied ==> ExplainedBy(result, w)
      ensures result == StillWaiting ==> NextToRead(old(current), old(incoming) + w.arrivals) == ([], [])
    {
      if dst.Length == 0 {
        return 0, Copied, w.arrivals;
      }
      ghost var whole := incoming + w.arrivals;
      ghost var before := current;
      ReadKeepsBytes(before, whole, dst.Length);
      var ended;
      ended, late := AwaitBytes(w);
      if ended.Some? {
        PassedOver(current, incoming + late, before, whole);
        return 0, ended.value, late;
      }
      assert NextToRead(before, whole) == (current, incoming + late);
      n := CopyOut(dst);
      result := Copied;
    }

    /** Sends one data frame after what is on the wire already. */
    method WriteFrame(chunk: bytes, interrupted: bool, ghost whole: bytes) returns (error: Option<WriteError>)
      requires |chunk| <= MAX_WRITE_CHUNK && writer.conn.wire == whole
      modifies writer, writer.conn
      ensures writer.token == old(writer.token)
      ensures error.None? ==>
                && writer.conn.wire == whole + FrameBytes(Frame(DATA, id, chunk))
                && writer.conn.broken == old(writer.conn.broken)
      ensures error.Some? ==> TornAfter(writer.conn.wire, whole, writer.conn.broken)
      ensures error.Some? ==> !old(GoesOut(FRAME_HEADER_SIZE + |chunk|, interrupted))
    {
      var f := Frame(DATA, id, chunk);
      error := writer.WriteFrame(f, interrupted);
      if error.Some? && error.value.ConnFailed? {
        ghost var k :| 0 <= k < |FrameBytes(f)| && writer.conn.wire == whole + FrameBytes(f)[..k];
        assert Torn(FrameBytes(f)[..k]);
      }
    }

    /** Nothing stands in the way of so many bytes. */
    predicate GoesOut(size: nat, interrupted: bool)
      reads writer, writer.conn
    {
      writer.token && !interrupted && writer.conn.Takes(size)
    }

    method WriteChunks(data: bytes, interrupted: bool) returns (total: nat, error: Option<WriteError>)
      modifies writer, writer.conn
      ensures writer.token == old(writer.token) && total <= |data|
      ensures error.None? ==> total == |data| && writer.conn.wire == old(writer.conn.wire) + ChunkWire(id, data)
      ensures error.Some? ==>
                TornAfter(writer.conn.wire, old(writer.conn.wire) + ChunkWire(id, data[..total]), writer.conn.broken)
      ensures error.Some? ==> !old(GoesOut(WireSize(|data|), interrupted))
    {
      ghost var before := writer.conn.wire;
      NoChunks(id, data);
      total, error := 0, None;
      while total < |data|
        invariant writer.token == old(writer.token) && writer.conn.broken == old(writer.conn.broken)
        invariant total <= |data| && (total < |data| ==> total % MAX_WRITE_CHUNK == 0)
        invariant writer.conn.wire == before + ChunkWire(id, data[..total])
      {
        var chunkSize := |data| - total;
        if chunkSize > MAX_WRITE_CHUNK {
          chunkSize := MAX_WRITE_CHUNK;
        }
        ghost var whole := ChunkWire(id, data[..total]);
        WireSoFar(id, data, total, chunkSize);
        error := WriteFrame(data[total..total + chunkSize], interrupted, before + whole);
        if error.Some? {
          return;
        }
        NextChunk(id, data, total, chunkSize);
        NextBoundary(total);
        Reassociate(before, whole, FrameBytes(Frame(DATA, id, data[total..total + chunkSize])));
        total := total + chunkSize;
      }
      assert data[..total] == data;
      error := None;
    }

    /** Sends the data chunk by chunk. The wire grows by exactly the frames of the bytes reported
        written, and by a torn frame if the connection failed in the middle of one. It succeeds if
        neither side has closed the stream, the token can be had, and the connection takes it all. */
    method Write(data: bytes, interrupted: bool) returns (total: nat, result: WriteResult)
      modifies writer, writer.conn
      ensures writer.token == old(writer.token) && total <= |data|
      ensures result.ClosedHere? || result.ClosedByPeer? ==> total == 0 && writer.conn.wire == old(writer.conn.wire)
      ensures result.Written? ==> total == |data| && writer.conn.wire == old(writer.conn.wire) + ChunkWire(id, data)
      ensures result.WriteFailed? ==>
                TornAfter(writer.conn.wire, old(writer.conn.wire) + ChunkWire(id, data[..total]), writer.conn.broken)
      ensures result.WriteFailed? ==> !old(GoesOut(WireSize(|data|), interrupted))
      ensures result.ClosedHere? <==> localDone
      ensures result.ClosedByPeer? <==> !localDone && remoteDone
    {
      if localDone {
        return 0, ClosedHere;
      }
      if remoteDone {
        return 0, ClosedByPeer;
      }
      var error;
      total, error := WriteChunks(data, interrupted);
      return total, if error.Some? then WriteFailed(error.value) else Written;
    }
  }
}
