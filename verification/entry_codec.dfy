/** The 24 bytes of an edge entry, little-endian: payload length, destination in 16 high and
    32 low bits, creation and deletion time. */
module EntryCodec {
  type Byte = b: int | 0 <= b < 256

  const MAX_VERTEX := 0xFFFF_FFFF_FFFF
  const MAX_LENGTH := 0xFFFF

  datatype Header = Header(length: int, dst: int, cre: int, del: int)

  predicate IsInt64(x: int) {
    -0x8000_0000_0000_0000 <= x < 0x8000_0000_0000_0000
  }

  predicate Encodable(h: Header) {
    0 <= h.length <= MAX_LENGTH && 0 <= h.dst <= MAX_VERTEX && IsInt64(h.cre) && IsInt64(h.del)
  }

  function Pow256(k: nat): (p: nat)
    ensures 0 < p
  {
    if k == 0 then 1 else 256 * Pow256(k - 1)
  }

  /** The `k` low bytes of `n`, lowest first. */
  function Le(n: nat, k: nat): (s: seq<Byte>)
    ensures |s| == k
  {
    if k == 0 then [] else [n % 256] + Le(n / 256, k - 1)
  }

  function FromLe(s: seq<Byte>): nat {
    if s == [] then 0 else s[0] + 256 * FromLe(s[1..])
  }

  lemma {:induction false} LeRoundTrip(n: nat, k: nat)
    ensures FromLe(Le(n, k)) == n % Pow256(k)
  {
    if k > 0 {
      LeRoundTrip(n / 256, k - 1);
      var p := Pow256(k - 1);
      assert Le(n, k)[1..] == Le(n / 256, k - 1);
      ModSplit(n, p);
    }
  }

  lemma ModSplit(n: nat, p: nat)
    requires 0 < p
    ensures n % (256 * p) == n % 256 + 256 * (n / 256 % p)
  {
    var q := n / 256 / p;
    var r := n % 256 + 256 * (n / 256 % p);
    assert n == 256 * (n / 256) + n % 256;
    assert n / 256 == q * p + n / 256 % p;
    assert n == q * (256 * p) + r;
    assert 0 <= r < 256 * p by {
      assert n / 256 % p <= p - 1;
      assert 256 * (n / 256 % p) <= 256 * (p - 1);
    }
    ModUnique(n, 256 * p, q, r);
  }

  lemma ModUnique(n: nat, m: nat, q: nat, r: nat)
    requires 0 < m && n == q * m + r && r < m
    ensures n % m == r
  {
    var d := n / m - q;
    assert n % m == n - m * (n / m);
    assert m * d == r - n % m by {
      assert m * (n / m) - m * q == m * d;
    }
    Multiple(m, d);
  }

  lemma Multiple(m: nat, d: int)
    requires 0 < m
    ensures d > 0 ==> m * d >= m
    ensures d < 0 ==> m * d <= 0 - m
  {
  }

  /** Two's complement in 64 bits. */
  function Unsigned(x: int): nat
    requires IsInt64(x)
  {
    if x < 0 then x + 0x1_0000_0000_0000_0000 else x
  }

  function Signed(n: nat): int {
    if n < 0x8000_0000_0000_0000 then n else n - 0x1_0000_0000_0000_0000
  }

  function Time(x: int): (s: seq<Byte>)
    requires IsInt64(x)
    ensures |s| == 8
  {
    Le(Unsigned(x), 8)
  }

  function Encode(h: Header): (s: seq<Byte>)
    requires Encodable(h)
    ensures |s| == 24
  {
    Le(h.length, 2) + Le(h.dst / 0x1_0000_0000, 2) + Le(h.dst % 0x1_0000_0000, 4) + Time(h.cre) + Time(h.del)
  }

  function Decode(s: seq<Byte>): Header
    requires |s| == 24
  {
    Header(FromLe(s[..2]), FromLe(s[2..4]) * 0x1_0000_0000 + FromLe(s[4..8]),
           Signed(FromLe(s[8..16])), Signed(FromLe(s[16..])))
  }

  lemma Powers()
    ensures Pow256(2) == 0x1_0000 && Pow256(4) == 0x1_0000_0000 && Pow256(8) == 0x1_0000_0000_0000_0000
  {
    assert Pow256(2) == 256 * Pow256(1);
    assert Pow256(4) == 256 * Pow256(3) == 256 * (256 * Pow256(2));
    assert Pow256(8) == 256 * Pow256(7) == 256 * (256 * Pow256(6)) == 256 * (256 * (256 * Pow256(5)))
        == 256 * (256 * (256 * (256 * Pow256(4))));
  }

  lemma SmallRoundTrip(n: nat, k: nat)
    requires n < Pow256(k)
    ensures FromLe(Le(n, k)) == n
  {
    LeRoundTrip(n, k);
    ModUnique(n, Pow256(k), 0, n);
  }

  lemma TimeRoundTrip(x: int)
    requires IsInt64(x)
    ensures Signed(FromLe(Time(x))) == x
  {
    Powers();
    SmallRoundTrip(Unsigned(x), 8);
  }

  /** What is stored in a slot is read back. */
  lemma RoundTrip(h: Header)
    requires Encodable(h)
    ensures Decode(Encode(h)) == h
  {
    Powers();
    var high, low := h.dst / 0x1_0000_0000, h.dst % 0x1_0000_0000;
    var s := Encode(h);
    assert s[..2] == Le(h.length, 2);
    assert s[2..4] == Le(high, 2);
    assert s[4..8] == Le(low, 4);
    assert s[8..16] == Time(h.cre);
    assert s[16..] == Time(h.del);
    SmallRoundTrip(h.length, 2);
    SmallRoundTrip(high, 2);
    SmallRoundTrip(low, 4);
    TimeRoundTrip(h.cre);
    TimeRoundTrip(h.del);
  }

  /** Writing the deletion time of an entry writes the last eight bytes of its slot. */
  lemma PatchDeletion(h: Header, t: int)
    requires Encodable(h) && IsInt64(t)
    ensures Encode(h.(del := t)) == Encode(h)[..16] + Time(t)
  {
  }

  /** A payload length survives the slot exactly when it fits 16 bits. */
  lemma LengthField(n: nat)
    ensures FromLe(Le(n, 2)) == n % 0x1_0000
    ensures FromLe(Le(n, 2)) == n <==> n <= MAX_LENGTH
  {
    Powers();
    LeRoundTrip(n, 2);
  }
}
