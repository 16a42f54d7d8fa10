/** Octets, the unit of everything that goes over the wire. */
module Bytes {

  type Byte = bv8

  datatype Option<+T> = None | Some(value: T)

  /** The number a byte stands for. */
  function Value(b: Byte): (v: nat)
    ensures v < 0x100
  {
    b as int
  }

  /** The low eight bits of a number. */
  function Octet(x: nat): Byte {
    (x % 0x100) as Byte
  }

  lemma NextByte(b: Byte)
    ensures b != 0xff ==> (b + 1) as int == b as int + 1
    ensures b as int == 0xff ==> b == 0xff
  {}

  /** Every number below 256 is the value of a byte. */
  lemma {:induction false} ByteOf(x: nat) returns (b: Byte)
    requires x < 0x100
    ensures b as int == x
  {
    if x == 0 {
      b := 0;
    } else {
      var c := ByteOf(x - 1);
      NextByte(c);
      b := c + 1;
    }
  }

  lemma OctetRoundTrip(x: nat)
    requires x < 0x100
    ensures (x as Byte) as int == x
  {
    var b := ByteOf(x);
    assert (b as int) as Byte == b;
  }

  lemma OctetValue(x: nat)
    ensures Value(Octet(x)) == x % 0x100
  {
    OctetRoundTrip(x % 0x100);
  }

  lemma LowOctet(x: nat)
    requires x < 0x100
    ensures Octet(x) == x as Byte
  {}

  function Fill(b: Byte, n: nat): (bytes: seq<Byte>)
    ensures |bytes| == n
    ensures forall i | 0 <= i < n :: bytes[i] == b
  {
    seq(n, _ => b)
  }

  function Flatten<T>(parts: seq<seq<T>>): seq<T> {
    if parts == [] then [] else parts[0] + Flatten(parts[1..])
  }

  lemma {:induction false} FlattenConcat<T>(a: seq<seq<T>>, b: seq<seq<T>>)
    ensures Flatten(a + b) == Flatten(a) + Flatten(b)
  {
    if a == [] {
      assert a + b == b;
    } else {
      assert (a + b)[1..] == a[1..] + b;
      FlattenConcat(a[1..], b);
    }
  }
}
