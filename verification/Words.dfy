// Machine words and the small result types shared by every module.
module Words {
  type uint8 = x: int | 0 <= x < 0x100
  type uint16 = x: int | 0 <= x < 0x1_0000
  type uint32 = x: int | 0 <= x < 0x1_0000_0000

  type bytes = seq<uint8>

  const TWO_31: int := 0x8000_0000
  const TWO_32: int := 0x1_0000_0000

  datatype Option<+T> = None | Some(value: T)

  datatype Result<+T, +E> = Ok(value: T) | Err(error: E)

  /** Conversion of an unbounded counter value to the 32-bit word that goes on the wire. */
  function Wrap32(x: int): (w: uint32)
  {
    x % TWO_32
  }

  // ---------------------------------------------------------------- big-endian words

  function PutUint32(x: uint32): (b: bytes)
    ensures |b| == 4
  {
    [x / 0x100_0000, x / 0x1_0000 % 0x100, x / 0x100 % 0x100, x % 0x100]
  }

  function GetUint32(b: bytes): uint32
    requires |b| == 4
  {
    0x100_0000 * (b[0] as int) + 0x1_0000 * (b[1] as int) + 0x100 * (b[2] as int) + b[3]
  }

  lemma GetPut(x: uint32)
    ensures GetUint32(PutUint32(x)) == x
  {
    assert x / 0x1_0000 == x / 0x100_0000 * 0x100 + x / 0x1_0000 % 0x100;
    assert x / 0x100 == x / 0x1_0000 * 0x100 + x / 0x100 % 0x100;
  }

  lemma PutGet(b: bytes)
    requires |b| == 4
    ensures PutUint32(GetUint32(b)) == b
  {
    var x := GetUint32(b);
    var b0: int, b1: int, b2: int := b[0], b[1], b[2];
    assert x / 0x100 == 0x1_0000 * b0 + 0x100 * b1 + b2;
    assert x / 0x1_0000 == 0x100 * b0 + b1;
    assert x / 0x100_0000 == b0;
  }

  // ---------------------------------------------------------------- byte strings

  function Joined(parts: seq<bytes>): bytes
  {
    if parts == [] then [] else parts[0] + Joined(parts[1..])
  }

  lemma {:induction false} JoinedAppend(parts: seq<bytes>, last: bytes)
    ensures Joined(parts + [last]) == Joined(parts) + last
  {
    if parts == [] {
      assert parts + [last] == [last];
      assert Joined([last]) == last + Joined([]);
    } else {
      assert (parts + [last])[1..] == parts[1..] + [last];
      JoinedAppend(parts[1..], last);
    }
  }

  // ---------------------------------------------------------------- sets

  lemma SubsetSize<T>(a: set<T>, b: set<T>)
    requires a <= b
    ensures |a| <= |b|
  {
    assert b == a + (b - a);
  }

  // ---------------------------------------------------------------- sequences

  lemma Reassociate<T>(a: seq<T>, b: seq<T>, c: seq<T>)
    ensures (a + b) + c == a + (b + c)
  {
  }
}
