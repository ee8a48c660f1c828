/** Bytes, and fixed-width little-endian numbers over them. */
module LittleEndian {

  type byte = n: nat | n < 256
  type Bytes = seq<byte>

  function Power256(n: nat): (p: nat)
    ensures p > 0
  {
    if n == 0 then 1 else 256 * Power256(n - 1)
  }

  /** The low `n` bytes of `v`. */
  function Encode(v: nat, n: nat): (b: Bytes)
    ensures |b| == n
  {
    if n == 0 then [] else [v % 256] + Encode(v / 256, n - 1)
  }

  function Decode(b: Bytes): (v: nat)
    ensures v < Power256(|b|)
  {
    if b == [] then 0 else b[0] as int + 256 * Decode(b[1..])
  }

  lemma {:induction false} DecodeEncode(v: nat, n: nat)
    ensures v < Power256(n) <==> Decode(Encode(v, n)) == v
  {
    if n > 0 {
      var b := Encode(v, n);
      assert b[1..] == Encode(v / 256, n - 1);
      DecodeEncode(v / 256, n - 1);
    }
  }

  lemma Carry(low: byte, high: nat)
    ensures (low + 256 * high) % 256 == low && (low + 256 * high) / 256 == high
  {
  }

  lemma {:induction false} EncodeDecode(b: Bytes)
    ensures Encode(Decode(b), |b|) == b
  {
    if b != [] {
      EncodeDecode(b[1..]);
      Carry(b[0], Decode(b[1..]));
      assert b == [b[0]] + b[1..];
    }
  }

  /** Byte `k` is digit `k` of the number in base 256, the lowest first. */
  lemma {:induction false} EncodeAt(v: nat, n: nat, k: nat)
    requires k < n
    ensures Encode(v, n)[k] as int == v / Power256(k) % 256
  {
    if k > 0 {
      EncodeAt(v / 256, n - 1, k - 1);
      DivideTwice(v, Power256(k - 1));
    }
  }

  lemma DivideTwice(v: nat, p: nat)
    requires p > 0
    ensures v / 256 / p == v / (256 * p)
  {
    var q, r, s := v / 256 / p, v / 256 % p, v % 256;
    assert v / 256 == p * q + r;
    assert v == 256 * (p * q + r) + s == (256 * p) * q + (256 * r + s);
    Quotient(v, 256 * p, q, 256 * r + s);
  }

  lemma Quotient(v: nat, d: nat, q: nat, r: nat)
    requires d > 0 && v == d * q + r && r < d
    ensures v / d == q
  {
    var e := v / d;
    if e < q { MoreTimes(d, e, q); }
    if q < e { MoreTimes(d, q, e); }
  }

  lemma {:induction false} MoreTimes(d: nat, x: nat, y: nat)
    requires x < y
    ensures d * x + d <= d * y
    decreases y
  {
    if x + 1 < y { MoreTimes(d, x, y - 1); }
  }
}
