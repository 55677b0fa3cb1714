/** Bytes, and numbers written as bytes. */
module Bytes {
  import opened Base

  type Byte = x: int | 0 <= x < 256

  type ByteSeq = seq<Byte>

  function Repeat(b: Byte, n: nat): (s: ByteSeq)
    ensures |s| == n && forall i :: 0 <= i < n ==> s[i] == b
  {
    seq(n, _ => b)
  }

  function Zeros(n: nat): (s: ByteSeq)
    ensures |s| == n && forall i :: 0 <= i < n ==> s[i] == 0
  {
    Repeat(0, n)
  }

  /** The keys of `m` that start with the prefix, each once, in the order in which the database lists them. */
  ghost predicate IsScan<V>(order: seq<ByteSeq>, m: map<ByteSeq, V>, prefix: ByteSeq) {
    Distinct(order) && forall k :: k in order <==> k in m && prefix <= k
  }

  function Pow256(n: nat): (p: nat)
    ensures p > 0
  {
    if n == 0 then 1 else 256 * Pow256(n - 1)
  }

  /** The number that the bytes denote, most significant byte first. */
  function BigEndian(s: ByteSeq): (x: nat) {
    if s == [] then 0 else BigEndian(s[..|s| - 1]) * 256 + s[|s| - 1]
  }

  /** The number that the bytes denote, least significant byte first. */
  function LittleEndian(s: ByteSeq): nat {
    if s == [] then 0 else s[0] + 256 * LittleEndian(s[1..])
  }

  function ToBigEndian(x: nat, n: nat): (s: ByteSeq)
    ensures |s| == n
    decreases n
  {
    if n == 0 then [] else ToBigEndian(x / 256, n - 1) + [x % 256]
  }

  function ToLittleEndian(x: nat, n: nat): (s: ByteSeq)
    ensures |s| == n
    decreases n
  {
    if n == 0 then [] else [x % 256] + ToLittleEndian(x / 256, n - 1)
  }

  lemma {:induction false} BigEndianRoundTrip(x: nat, n: nat)
    requires x < Pow256(n)
    ensures BigEndian(ToBigEndian(x, n)) == x
    decreases n
  {
    if n > 0 {
      BigEndianRoundTrip(x / 256, n - 1);
      assert ToBigEndian(x, n)[..n - 1] == ToBigEndian(x / 256, n - 1);
    }
  }

  lemma {:induction false} LittleEndianRoundTrip(x: nat, n: nat)
    requires x < Pow256(n)
    ensures LittleEndian(ToLittleEndian(x, n)) == x
    decreases n
  {
    if n > 0 {
      LittleEndianRoundTrip(x / 256, n - 1);
      assert ToLittleEndian(x, n)[1..] == ToLittleEndian(x / 256, n - 1);
    }
  }

  lemma {:induction false} Pow256Sum(a: nat, b: nat)
    ensures Pow256(a + b) == Pow256(a) * Pow256(b)
    decreases a
  {
    if a > 0 {
      Pow256Sum(a - 1, b);
    }
  }

  lemma {:induction false} BigEndianBound(s: ByteSeq)
    ensures BigEndian(s) < Pow256(|s|)
  {
    if s != [] {
      BigEndianBound(s[..|s| - 1]);
    }
  }

  lemma {:induction false} BigEndianConcat(s: ByteSeq, t: ByteSeq)
    ensures BigEndian(s + t) == BigEndian(s) * Pow256(|t|) + BigEndian(t)
    decreases |t|
  {
    if t == [] {
      assert s + t == s;
    } else {
      var front, last := t[..|t| - 1], t[|t| - 1];
      assert (s + t)[..|s + t| - 1] == s + front;
      BigEndianConcat(s, front);
      MoveByte(BigEndian(s), Pow256(|front|), BigEndian(front), last);
    }
  }

  lemma MoveByte(x: nat, p: nat, y: nat, last: nat)
    ensures (x * p + y) * 256 + last == x * (256 * p) + (y * 256 + last)
  {
    assert (x * p) * 256 == x * (256 * p);
  }

  /** Bytes are recovered from their number and their count. */
  lemma {:induction false} BigEndianInverse(s: ByteSeq)
    ensures ToBigEndian(BigEndian(s), |s|) == s
  {
    if s != [] {
      BigEndianInverse(s[..|s| - 1]);
    }
  }

  lemma {:induction false} BigEndianZeros(n: nat)
    ensures BigEndian(Zeros(n)) == 0
  {
    if n > 0 {
      assert Zeros(n)[..n - 1] == Zeros(n - 1);
      BigEndianZeros(n - 1);
    }
  }
}
