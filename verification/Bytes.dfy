/** Byte strings, their concatenation, and the little-endian u32 of a frame header. */
module Bytes {
  newtype byte = b: int | 0 <= b < 256

  datatype Option<+T> = None | Some(value: T)

  const U32: int := 0x1_0000_0000

  /** The concatenation of a list of byte strings. */
  function Flatten(parts: seq<seq<byte>>): seq<byte> {
    if parts == [] then [] else parts[0] + Flatten(parts[1..])
  }

  lemma {:induction false} FlattenAppend(a: seq<seq<byte>>, b: seq<seq<byte>>)
    ensures Flatten(a + b) == Flatten(a) + Flatten(b)
  {
    if a == [] {
      assert a + b == b;
    } else {
      assert (a + b)[1..] == a[1..] + b;
      FlattenAppend(a[1..], b);
    }
  }

  lemma FlattenNone(a: seq<seq<byte>>)
    ensures Flatten(a[..0]) == []
  {
  }

  lemma SnocAppend(a: seq<seq<byte>>, p: seq<byte>, b: seq<seq<byte>>)
    ensures a + ([p] + b) == (a + [p]) + b
  {
  }

  lemma FlattenOne(p: seq<byte>)
    ensures Flatten([p]) == p
  {
    assert [p][1..] == [];
  }

  lemma FlattenSnoc(a: seq<seq<byte>>, p: seq<byte>)
    ensures Flatten(a + [p]) == Flatten(a) + p
  {
    FlattenAppend(a, [p]);
    FlattenOne(p);
  }

  /** Splitting a list of parts at k splits its bytes. */
  lemma FlattenSplit(a: seq<seq<byte>>, k: nat)
    requires k <= |a|
    ensures Flatten(a) == Flatten(a[..k]) + Flatten(a[k..])
  {
    FlattenAppend(a[..k], a[k..]);
    assert a[..k] + a[k..] == a;
  }

  lemma FlattenTakeNext(a: seq<seq<byte>>, k: nat)
    requires k < |a|
    ensures Flatten(a[..k + 1]) == Flatten(a[..k]) + a[k]
  {
    assert a[..k + 1] == a[..k] + [a[k]];
    FlattenSnoc(a[..k], a[k]);
  }

  /** The four bytes `u32::to_le_bytes` gives for `n as u32`; the cast truncates. */
  function ToLe(n: nat): (b: seq<byte>)
    ensures |b| == 4
  {
    var v := n % U32;
    [(v % 256) as byte, (v / 256 % 256) as byte, (v / 0x1_0000 % 256) as byte, (v / 0x100_0000) as byte]
  }

  function FromLe(b: seq<byte>): (n: nat)
    requires |b| >= 4
    ensures n < U32
  {
    b[0] as nat + 256 * b[1] as nat + 0x1_0000 * b[2] as nat + 0x100_0000 * b[3] as nat
  }

  lemma LeRoundTrip(n: nat)
    ensures FromLe(ToLe(n)) == n % U32
  {
    var v := n % U32;
    assert v / 0x1_0000 == v / 256 / 256;
    assert v / 0x100_0000 == v / 256 / 256 / 256;
  }

  lemma LeInverse(b: seq<byte>)
    requires |b| == 4
    ensures ToLe(FromLe(b)) == b
  {
    LeDigits(b[0] as int, b[1] as int, b[2] as int, b[3] as int);
    var n := FromLe(b);
    assert n % U32 == n;
    assert ToLe(n)[0] == b[0] && ToLe(n)[1] == b[1] && ToLe(n)[2] == b[2] && ToLe(n)[3] == b[3];
  }

  lemma LeDigits(b0: int, b1: int, b2: int, b3: int)
    requires 0 <= b0 < 256 && 0 <= b1 < 256 && 0 <= b2 < 256 && 0 <= b3 < 256
    ensures var n := b0 + 256 * b1 + 0x1_0000 * b2 + 0x100_0000 * b3;
            n % 256 == b0 && n / 256 % 256 == b1 && n / 0x1_0000 % 256 == b2 && n / 0x100_0000 == b3
  {
    var n := b0 + 256 * b1 + 0x1_0000 * b2 + 0x100_0000 * b3;
    assert n / 256 == b1 + 256 * b2 + 0x1_0000 * b3;
    assert n / 0x1_0000 == b2 + 256 * b3;
    assert n / 0x100_0000 == b3;
  }

  // ---- little-endian, by position ----

  /** The number whose digits in base 256 are the bytes of b, the least significant one first. */
  function LeValue(b: seq<byte>): nat {
    if b == [] then 0 else b[0] as nat + 256 * LeValue(b[1..])
  }

  lemma LeValueOfFour(b: seq<byte>)
    requires |b| == 4
    ensures LeValue(b) == b[0] as nat + 256 * (b[1] as nat + 256 * (b[2] as nat + 256 * b[3] as nat))
  {
    var b1, b2, b3 := b[1..], b[2..], b[3..];
    assert b1[1..] == b2 && b2[1..] == b3 && b3[1..] == [];
    assert LeValue(b3) == b[3] as nat;
    assert LeValue(b2) == b[2] as nat + 256 * LeValue(b3);
    assert LeValue(b1) == b[1] as nat + 256 * LeValue(b2);
  }

  /** A header is read with its least significant byte first. */
  lemma FromLeIsLittleEndian(b: seq<byte>)
    requires |b| >= 4
    ensures FromLe(b) == LeValue(b[..4])
  {
    LeValueOfFour(b[..4]);
  }

  /** A header is written with its least significant byte first. */
  lemma ToLeIsLittleEndian(n: nat)
    ensures LeValue(ToLe(n)) == n % U32
  {
    LeRoundTrip(n);
    FromLeIsLittleEndian(ToLe(n));
    assert ToLe(n)[..4] == ToLe(n);
  }
}
