/**
 The Adler-32 checksum of section 2.2 of RFC 1950, twice: as the definition by two sums over
 the whole message, and as the byte-by-byte update of a running sum that the device performs.
 */
module Adler32 {

  const MOD: nat := 65521

  newtype byte = b: int | 0 <= b < 256

  /** The sum of all bytes. */
  function ByteSum(data: seq<byte>): nat {
    if data == [] then 0 else ByteSum(data[..|data| - 1]) + data[|data| - 1] as nat
  }

  /** The first sum of the checksum, before reduction: one plus all bytes. */
  function S1(data: seq<byte>): nat {
    1 + ByteSum(data)
  }

  /** The second sum, before reduction: the first sums of all non-empty prefixes. */
  function S2(data: seq<byte>): nat {
    if data == [] then 0 else S2(data[..|data| - 1]) + S1(data)
  }

  /** Adler-32 as RFC 1950 defines it. */
  function Checksum(data: seq<byte>): nat {
    S2(data) % MOD * 65536 + S1(data) % MOD
  }

  /** One byte is added to a running sum, kept as in the device's sum register. */
  function FeedByte(sum: nat, d: byte): nat {
    var a := (sum % 65536 + d as nat) % MOD;
    var b := (sum / 65536 + a) % MOD;
    b * 65536 + a
  }

  /** The device runs over `data`, starting from the sum in its register. */
  function Feed(sum: nat, data: seq<byte>): nat
    decreases |data|
  {
    if data == [] then sum else Feed(FeedByte(sum, data[0]), data[1..])
  }

  lemma {:induction false} FeedAppend(sum: nat, x: seq<byte>, y: seq<byte>)
    ensures Feed(sum, x + y) == Feed(Feed(sum, x), y)
    decreases x
  {
    if x == [] {
      assert x + y == y;
    } else {
      assert (x + y)[1..] == x[1..] + y;
      FeedAppend(FeedByte(sum, x[0]), x[1..], y);
    }
  }

  lemma {:induction false} AddMod(x: nat, y: nat)
    ensures (x % MOD + y) % MOD == (x + y) % MOD
  {
    var q := x / MOD;
    assert x + y == x % MOD + y + q * MOD;
    ModShift(x % MOD + y, q);
  }

  lemma {:induction false} ModShift(x: nat, q: nat)
    ensures (x + q * MOD) % MOD == x % MOD
  {
    if q > 0 {
      ModShift(x, q - 1);
      assert x + q * MOD == x + (q - 1) * MOD + MOD;
    }
  }

  lemma {:induction false} Halves(high: nat, low: nat)
    requires low < 65536
    ensures (high * 65536 + low) % 65536 == low && (high * 65536 + low) / 65536 == high
  {
  }

  lemma {:induction false} FeedSums(s1: nat, s2: nat, d: byte)
    ensures FeedByte(s2 % MOD * 65536 + s1 % MOD, d) == (s2 + (s1 + d as nat)) % MOD * 65536 + (s1 + d as nat) % MOD
  {
    Halves(s2 % MOD, s1 % MOD);
    AddMod(s1, d as nat);
    AddMod(s2, (s1 + d as nat) % MOD);
    AddMod(s1 + d as nat, s2);
  }

  /** The update of the register keeps it at the checksum of the bytes fed so far. */
  lemma {:induction false} FeedByteChecksum(data: seq<byte>, d: byte)
    ensures FeedByte(Checksum(data), d) == Checksum(data + [d])
  {
    assert (data + [d])[..|data|] == data;
    assert S1(data + [d]) == S1(data) + d as nat;
    FeedSums(S1(data), S2(data), d);
  }

  /** The device, started with the initial value 1, computes the checksum of RFC 1950. */
  lemma {:induction false} FeedIsChecksum(data: seq<byte>)
    ensures Feed(1, data) == Checksum(data)
  {
    if data != [] {
      var init, last := data[..|data| - 1], data[|data| - 1];
      assert data == init + [last];
      FeedIsChecksum(init);
      FeedAppend(1, init, [last]);
      FeedByteChecksum(init, last);
      assert [last][1..] == [];
    }
  }

  /** A sum that stands for some message, fed more bytes, stands for the longer message. */
  lemma {:induction false} FeedContinues(x: seq<byte>, y: seq<byte>)
    ensures Feed(Checksum(x), y) == Checksum(x + y)
  {
    FeedIsChecksum(x);
    FeedIsChecksum(x + y);
    FeedAppend(1, x, y);
  }
}
