/**
 * Fixed-width machine integers and the little-/big-endian byte encodings that the
 * commitment scheme, the proof wire format and the instruction data are built from.
 * Rust's `u8`, `u64` and `u128` become subset types of `int`; every place where the
 * client relies on a value fitting its width is stated as a precondition or proved.
 */
module Bytes {

  const TWO_64: nat := 0x1_0000_0000_0000_0000
  const TWO_128: nat := 0x1_0000_0000_0000_0000_0000_0000_0000_0000
  const TWO_256: nat := 0x1_0000_0000_0000_0000_0000_0000_0000_0000_0000_0000_0000_0000_0000_0000_0000_0000

  type U8 = x: int | 0 <= x < 256
  type U64 = x: int | 0 <= x < 0x1_0000_0000_0000_0000
  type U128 = x: int | 0 <= x < 0x1_0000_0000_0000_0000_0000_0000_0000_0000

  /** A `[u8; 32]` buffer. */
  type Bytes32 = s: seq<U8> | |s| == 32 witness seq(32, _ => 0)

  /** 256^n, the number of distinct n-byte strings. */
  function Pow256(n: nat): (r: nat)
    ensures r > 0
  {
    if n == 0 then 1 else 256 * Pow256(n - 1)
  }

  lemma {:induction false} Pow256Add(m: nat, n: nat)
    ensures Pow256(m + n) == Pow256(m) * Pow256(n)
  {
    if m > 0 {
      Pow256Add(m - 1, n);
      assert Pow256(m + n) == 256 * Pow256(m - 1 + n);
    }
  }

  lemma Pow256Eight()
    ensures Pow256(8) == TWO_64
  {
    assert Pow256(2) == 0x1_0000;
    Pow256Add(2, 2);
    Pow256Add(4, 4);
  }

  lemma Pow256Sixteen()
    ensures Pow256(16) == TWO_128
  {
    Pow256Eight();
    Pow256Add(8, 8);
  }

  lemma Pow256ThirtyTwo()
    ensures Pow256(32) == TWO_256
  {
    Pow256Sixteen();
    Pow256Add(16, 16);
  }

  /** The value of a byte string read least significant byte first (`from_le_bytes`). */
  function LE(s: seq<U8>): nat
  {
    if s == [] then 0 else s[0] + 256 * LE(s[1..])
  }

  /** The value of a byte string read most significant byte first (`from_bytes_be`). */
  function BE(s: seq<U8>): nat
  {
    if s == [] then 0 else 256 * BE(s[..|s| - 1]) + s[|s| - 1]
  }

  /** The n-byte little-endian encoding of x (`to_le_bytes`); it decodes back to x. */
  function ToLE(x: nat, n: nat): (r: seq<U8>)
    requires x < Pow256(n)
    ensures |r| == n && LE(r) == x
  {
    if n == 0 then [] else
      var rest := ToLE(x / 256, n - 1);
      assert ([x % 256] + rest)[1..] == rest;
      [x % 256] + rest
  }

  /** The n-byte big-endian encoding of x, zero-padded on the left; it decodes back to x. */
  function ToBE(x: nat, n: nat): (r: seq<U8>)
    requires x < Pow256(n)
    ensures |r| == n && BE(r) == x
  {
    if n == 0 then [] else
      var rest := ToBE(x / 256, n - 1);
      assert (rest + [x % 256])[..n - 1] == rest;
      rest + [x % 256]
  }

  /** The bytes of s in the opposite order (`<[u8]>::reverse`). */
  function Reverse(s: seq<U8>): (r: seq<U8>)
    ensures |r| == |s|
  {
    if s == [] then [] else Reverse(s[1..]) + [s[0]]
  }

  lemma {:induction false} ReverseAt(s: seq<U8>, k: nat)
    requires k < |s|
    ensures Reverse(s)[k] == s[|s| - 1 - k]
  {
    if k < |s| - 1 {
      ReverseAt(s[1..], k);
    }
  }

  lemma {:induction false} LEBound(s: seq<U8>)
    ensures LE(s) < Pow256(|s|)
  {
    if s != [] {
      LEBound(s[1..]);
    }
  }

  lemma {:induction false} BEBound(s: seq<U8>)
    ensures BE(s) < Pow256(|s|)
  {
    if s != [] {
      BEBound(s[..|s| - 1]);
    }
  }

  /** Little-endian decoding is injective on strings of one length: encoding the decoded value gives the string back. */
  lemma {:induction false} ToLEOfLE(s: seq<U8>)
    ensures LE(s) < Pow256(|s|) && ToLE(LE(s), |s|) == s
  {
    LEBound(s);
    if s != [] {
      ToLEOfLE(s[1..]);
      assert LE(s) % 256 == s[0] && LE(s) / 256 == LE(s[1..]);
    }
  }

  /** Big-endian decoding is injective on strings of one length: encoding the decoded value gives the string back. */
  lemma {:induction false} ToBEOfBE(s: seq<U8>)
    ensures BE(s) < Pow256(|s|) && ToBE(BE(s), |s|) == s
  {
    BEBound(s);
    if s != [] {
      var init := s[..|s| - 1];
      ToBEOfBE(init);
      assert BE(s) % 256 == s[|s| - 1] && BE(s) / 256 == BE(init);
      assert init + [s[|s| - 1]] == s;
    }
  }

  /** Two byte strings of one length that read as the same big-endian value are equal. */
  lemma BEInjective(a: seq<U8>, b: seq<U8>)
    requires |a| == |b| && BE(a) == BE(b)
    ensures a == b
  {
    ToBEOfBE(a);
    ToBEOfBE(b);
  }

  /** Reading a concatenation little-endian: the second part is worth 256^|a| per unit. */
  lemma {:induction false} LEAppend(a: seq<U8>, b: seq<U8>)
    ensures LE(a + b) == LE(a) + Pow256(|a|) * LE(b)
  {
    if a != [] {
      var t := a[1..];
      assert (a + b)[0] == a[0] && (a + b)[1..] == t + b;
      LEAppend(t, b);
      var p := Pow256(|t|);
      assert Pow256(|a|) == 256 * p;
      calc {
        LE(a + b);
        a[0] + 256 * LE(t + b);
        a[0] + 256 * (LE(t) + p * LE(b));
        { ScaleSum(256, LE(t), p, LE(b)); }
        a[0] + 256 * LE(t) + p * (256 * LE(b));
        { ScaleSwap(256, p, LE(b)); }
        LE(a) + Pow256(|a|) * LE(b);
      }
    } else {
      assert a + b == b;
    }
  }

  /** Reading a concatenation big-endian: the first part is worth 256^|b| per unit. */
  lemma {:induction false} BEAppend(a: seq<U8>, b: seq<U8>)
    ensures BE(a + b) == BE(a) * Pow256(|b|) + BE(b)
  {
    if b == [] {
      assert a + b == a;
    } else {
      var t := b[..|b| - 1];
      assert (a + b)[..|a + b| - 1] == a + t;
      BEAppend(a, t);
      ScaleSum(256, BE(t), BE(a), Pow256(|t|));
    }
  }

  /** k * (u + v * w) == k * u + (k * w) * v, stated once so that the encoders' proofs stay linear. */
  lemma ScaleSum(k: nat, u: nat, v: nat, w: nat)
    ensures k * (u + v * w) == k * u + v * (k * w)
  {
  }

  /** (k * p) * v == p * (k * v). */
  lemma ScaleSwap(k: nat, p: nat, v: nat)
    ensures (k * p) * v == p * (k * v)
  {
  }

  /** Reading the reversed string big-endian is reading the string little-endian. */
  lemma {:induction false} BEOfReverse(s: seq<U8>)
    ensures BE(Reverse(s)) == LE(s)
  {
    if s != [] {
      var r := Reverse(s[1..]);
      assert (r + [s[0]])[..|r|] == r;
      BEOfReverse(s[1..]);
    }
  }

  /** Reversing the little-endian encoding gives the big-endian encoding of the same value. */
  lemma ReverseOfToLE(x: nat, n: nat)
    requires x < Pow256(n)
    ensures Reverse(ToLE(x, n)) == ToBE(x, n)
  {
    var r := Reverse(ToLE(x, n));
    BEOfReverse(ToLE(x, n));
    ToBEOfBE(r);
  }

  /** One step of evaluating a little-endian value from the most significant end (used by the test vectors). */
  lemma LESuffixStep(s: seq<U8>, k: nat)
    requires k < |s|
    ensures LE(s[k..]) == s[k] + 256 * LE(s[k + 1..])
  {
    assert s[k..][1..] == s[k + 1..];
  }

  lemma LESuffixEmpty(s: seq<U8>)
    ensures LE(s[|s|..]) == 0
  {
  }

  /** One step of evaluating a big-endian value from the most significant end (used by the test vectors). */
  lemma BEPrefixStep(s: seq<U8>, k: nat)
    requires 0 < k <= |s|
    ensures BE(s[..k]) == 256 * BE(s[..k - 1]) + s[k - 1]
  {
    assert s[..k][..k - 1] == s[..k - 1];
  }
}
