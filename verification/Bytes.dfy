/** Byte strings and the integer encodings of util/util.go and common/bytes.go. */
module Bytes {
  newtype byte = x: int | 0 <= x < 256
  type Bytes = seq<byte>

  const TWO_32 := 0x1_0000_0000
  const TWO_63 := 0x8000_0000_0000_0000
  const TWO_64 := 0x1_0000_0000_0000_0000

  /** The value of a big-endian byte string. */
  function FromBytes(s: Bytes): nat {
    if s == [] then 0 else 256 * FromBytes(s[..|s| - 1]) + s[|s| - 1] as nat
  }

  /** The `width` low bytes of `n`, big-endian. */
  function ToBytes(n: nat, width: nat): (s: Bytes)
    ensures |s| == width
  {
    if width == 0 then [] else ToBytes(n / 256, width - 1) + [(n % 256) as byte]
  }

  function Pow256(width: nat): nat {
    if width == 0 then 1 else 256 * Pow256(width - 1)
  }

  lemma {:induction false} RoundTrip(n: nat, width: nat)
    requires n < Pow256(width)
    ensures FromBytes(ToBytes(n, width)) == n
  {
    if width > 0 {
      RoundTrip(n / 256, width - 1);
      var s := ToBytes(n, width);
      assert s[..width - 1] == ToBytes(n / 256, width - 1);
    }
  }

  lemma {:induction false} FromBytesInjective(s: Bytes, t: Bytes)
    requires |s| == |t| && FromBytes(s) == FromBytes(t)
    ensures s == t
  {
    if s != [] {
      var n := |s| - 1;
      FromBytesInjective(s[..n], t[..n]);
      assert s == s[..n] + [s[n]] && t == t[..n] + [t[n]];
    }
  }

  lemma {:induction false} FromBytesBound(s: Bytes)
    ensures FromBytes(s) < Pow256(|s|)
  {
    if s != [] {
      FromBytesBound(s[..|s| - 1]);
    }
  }

  lemma {:induction false} Pow256Monotone(m: nat, n: nat)
    requires m <= n
    ensures 0 < Pow256(m) <= Pow256(n)
    decreases m + n
  {
    if m < n {
      Pow256Monotone(m, n - 1);
    } else if m > 0 {
      Pow256Monotone(m - 1, n - 1);
    }
  }

  /** Uint64ToBytes, on values that fit. */
  function Uint64ToBytes(n: nat): Bytes {
    ToBytes(n, 8)
  }

  lemma Uint64RoundTrip(n: nat)
    requires n < TWO_64
    ensures FromBytes(Uint64ToBytes(n)) == n
  {
    assert Pow256(8) == TWO_64 by {
      assert Pow256(4) == 0x1_0000_0000;
      assert Pow256(6) == 0x1_0000_0000_0000;
    }
    RoundTrip(n, 8);
  }

  /** BytesToInt32: the first four bytes as a signed 32-bit integer; shorter input is a panic. */
  function BytesToInt32(s: Bytes): int
    requires |s| >= 4
  {
    var n := FromBytes(s[..4]);
    if n >= TWO_32 / 2 then n - TWO_32 else n
  }

  /** The 32-bit index tells two hashes apart exactly by their first four bytes. */
  lemma IndexIsPrefix(s: Bytes, t: Bytes)
    requires |s| >= 4 && |t| >= 4
    ensures BytesToInt32(s) == BytesToInt32(t) <==> s[..4] == t[..4]
  {
    FourByteBound(s[..4]);
    FourByteBound(t[..4]);
    if BytesToInt32(s) == BytesToInt32(t) {
      FromBytesInjective(s[..4], t[..4]);
    }
  }

  /** The index is the signed number of 32 bits that has the first four bytes, the first counting most. */
  lemma IndexLaw(s: Bytes)
    requires |s| >= 4
    ensures -0x8000_0000 <= BytesToInt32(s) < 0x8000_0000
    ensures (BytesToInt32(s) - (((s[0] as int * 256 + s[1] as int) * 256 + s[2] as int) * 256 + s[3] as int)) % TWO_32
      == 0
  {
    var f := s[..4];
    FourByteBound(f);
    assert f[..3][..2] == f[..2] && f[..2][..1] == f[..1] && f[..1][..0] == [];
    assert FromBytes(f[..1]) == f[0] as nat;
    assert FromBytes(f[..2]) == f[0] as nat * 256 + f[1] as nat;
    assert FromBytes(f[..3]) == (f[0] as nat * 256 + f[1] as nat) * 256 + f[2] as nat;
  }

  lemma FourByteBound(s: Bytes)
    requires |s| == 4
    ensures FromBytes(s) < TWO_32
  {
    assert s[..3][..2] == s[..2] && s[..2][..1] == s[..1] && s[..1][..0] == [];
    assert FromBytes(s[..1]) < 256;
    assert FromBytes(s[..2]) < 0x1_0000;
    assert FromBytes(s[..3]) < 0x100_0000;
  }

  /** int64(n) of a 64-bit unsigned n. */
  function ToInt64(n: nat): int {
    var r := n % TWO_64;
    if r >= TWO_63 then r - TWO_64 else r
  }

  /** The signed number of 64 bits that has the same bits. */
  lemma Int64Law(n: nat)
    ensures -TWO_63 <= ToInt64(n) < TWO_63 && (ToInt64(n) - n) % TWO_64 == 0
  {
  }

  lemma ToInt64Injective(m: nat, n: nat)
    requires m < TWO_64 && n < TWO_64 && ToInt64(m) == ToInt64(n)
    ensures m == n
  {
  }
}
