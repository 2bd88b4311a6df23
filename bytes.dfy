/** Fixed-size byte arrays and their big-endian value, as `BigUint::from_bytes_be` reads them. */
module Bytes {
  type Byte = b: int | 0 <= b < 256

  /** A `[u8; 32]`: a proof-of-work target or an address identity. */
  type Bytes32 = s: seq<Byte> | |s| == 32 witness AllOnes(32)

  /** An address or miner identity (`[u8; 32]`). */
  type Id = Bytes32

  function Pow(base: nat, k: nat): nat
  {
    if k == 0 then 1 else base * Pow(base, k - 1)
  }

  /** `n` bytes of 0xff. */
  function AllOnes(n: nat): (s: seq<Byte>)
    ensures |s| == n && forall i :: 0 <= i < n ==> s[i] == 255
  {
    seq(n, _ => 255)
  }

  /** The unsigned integer whose big-endian byte string is `bytes`. */
  function FromBytesBE(bytes: seq<Byte>): (v: nat)
    ensures v < Pow(256, |bytes|)
  {
    if bytes == [] then 0
    else
      var high := FromBytesBE(bytes[..|bytes| - 1]);
      var p := Pow(256, |bytes| - 1);
      assert high * 256 <= (p - 1) * 256;
      high * 256 + bytes[|bytes| - 1]
  }

  /** All-ones bytes read as the largest value of their width. */
  lemma {:induction false} AllOnesValue(n: nat)
    ensures FromBytesBE(AllOnes(n)) == Pow(256, n) - 1
  {
    if n > 0 {
      assert AllOnes(n)[..n - 1] == AllOnes(n - 1);
      AllOnesValue(n - 1);
    }
  }

  /** Only the all-ones string reaches the largest value of its width. */
  lemma {:induction false} MaxValueIsAllOnes(bytes: seq<Byte>)
    requires FromBytesBE(bytes) == Pow(256, |bytes|) - 1
    ensures bytes == AllOnes(|bytes|)
  {
    var n := |bytes|;
    if n > 0 {
      var prefix := bytes[..n - 1];
      var high := FromBytesBE(prefix);
      var p := Pow(256, n - 1);
      if high + 2 <= p {
        assert false;
      }
      assert high == p - 1;
      assert bytes[n - 1] == 255;
      MaxValueIsAllOnes(prefix);
      assert bytes == prefix + [bytes[n - 1]];
    }
  }
}
