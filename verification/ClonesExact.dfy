/** When the emitted statements rebuild the bytecode: an exact answer. */
module ClonesExact {
  import opened Bytes
  import opened Clones

  // ---------------------------------------------------------------------
  // Bits and bytes

  lemma {:induction false} Pow2Is256(n: nat)
    ensures Pow2(8 * n) == Pow256(n)
  {
    if n > 0 {
      Pow2Is256(n - 1);
      assert Pow2(8 * n) == 2 * Pow2(8 * n - 1) == 4 * Pow2(8 * n - 2) == 8 * Pow2(8 * n - 3);
      assert Pow2(8 * n - 3) == 2 * Pow2(8 * n - 4) == 4 * Pow2(8 * n - 5) == 8 * Pow2(8 * n - 6);
      assert Pow2(8 * n - 6) == 2 * Pow2(8 * n - 7) == 4 * Pow2(8 * n - 8);
    }
  }

  lemma Powers()
    ensures ADDRESSES == Pow256(20) && WORD == Pow256(32)
  {
    assert Pow256(2) == 0x1_0000;
    Pow256Sum(2, 2);
    Pow256Sum(4, 4);
    Pow256Sum(8, 8);
    Pow256Sum(16, 16);
    Pow256Sum(16, 4);
  }

  lemma BitOrStep(x: nat, y: nat)
    ensures BitOr(x, y) == 2 * BitOr(x / 2, y / 2) + if x % 2 == 1 || y % 2 == 1 then 1 else 0
  {
  }

  lemma Halve(a: nat, b: nat, p: nat)
    ensures (a * (2 * p) + b) / 2 == a * p + b / 2 && (a * (2 * p) + b) % 2 == b % 2
  {
    assert a * (2 * p) + b == 2 * (a * p) + b;
  }

  lemma OrDouble(a: nat, b: nat, c: nat, d: nat, p: nat, hi: nat)
    requires BitOr(a * p + b / 2, c * p + d / 2) == hi * p + BitOr(b / 2, d / 2)
    ensures BitOr(a * (2 * p) + b, c * (2 * p) + d) == hi * (2 * p) + BitOr(b, d)
  {
    hide BitOr;
    Halve(a, b, p);
    Halve(c, d, p);
    BitOrStep(a * (2 * p) + b, c * (2 * p) + d);
    BitOrStep(b, d);
    assert hi * (2 * p) == 2 * (hi * p);
  }

  /** The two halves of a word are joined separately. */
  lemma {:induction false} OrSplit(a: nat, b: nat, c: nat, d: nat, n: nat)
    requires b < Pow2(n) && d < Pow2(n)
    ensures BitOr(a * Pow2(n) + b, c * Pow2(n) + d) == BitOr(a, c) * Pow2(n) + BitOr(b, d)
    decreases n
  {
    if n == 0 {
      assert a * 1 + b == a && c * 1 + d == c;
    } else {
      OrSplit(a, b / 2, c, d / 2, n - 1);
      OrDouble(a, b, c, d, Pow2(n - 1), BitOr(a, c));
    }
  }

  lemma {:induction false} OrZero(x: nat)
    ensures BitOr(x, 0) == x && BitOr(0, x) == x
  {
    if x > 0 {
      OrZero(x / 2);
    }
  }

  /** A value put over the zeros that were left for it. */
  lemma Place(a: ByteSeq, r: ByteSeq, b: ByteSeq)
    ensures var hole, value := BigEndian(a + Zeros(|r|) + b), BigEndian(r) * Pow256(|b|);
      BitOr(hole, value) == BitOr(value, hole) == BigEndian(a + r + b)
  {
    hide Pow256, BigEndian, BitOr;
    var p, q := Pow256(|b|), Pow256(|r|);
    var av, rv, bv := BigEndian(a), BigEndian(r), BigEndian(b);
    BigEndianConcat(a, Zeros(|r|));
    BigEndianZeros(|r|);
    BigEndianConcat(a + Zeros(|r|), b);
    BigEndianConcat(a, r);
    BigEndianConcat(a + r, b);
    BigEndianBound(b);
    BigEndianBound(r);
    Pow2Is256(|b|);
    Pow2Is256(|r|);
    OrZero(bv);
    OrZero(rv);
    OrZero(av);
    OrSplit(av * q, bv, rv, 0, 8 * |b|);
    OrSplit(rv, 0, av * q, bv, 8 * |b|);
    OrSplit(av, 0, 0, rv, 8 * |r|);
    OrSplit(0, rv, av, 0, 8 * |r|);
  }

  lemma {:induction false} MulMono(a: nat, b: nat, m: nat)
    requires a <= b
    ensures a * m <= b * m
    decreases b
  {
    if a < b {
      MulMono(a, b - 1, m);
      assert b * m == (b - 1) * m + m;
    }
  }

  lemma DivMod(h: nat, m: nat, r: nat)
    requires r < m
    ensures (h * m + r) / m == h && (h * m + r) % m == r
  {
    var x := h * m + r;
    var q := x / m;
    assert x == q * m + x % m;
    assert (h + 1) * m == h * m + m && (q + 1) * m == q * m + m;
    if q > h {
      MulMono(h + 1, q, m);
    }
    if q < h {
      MulMono(q + 1, h, m);
    }
  }

  lemma Scale(x: nat, y: nat, p: nat)
    requires x < y && p > 0
    ensures x * p < y * p
  {
    MulMono(x + 1, y, p);
    assert (x + 1) * p == x * p + p;
  }

  function RouterBytes(router: nat): (rb: ByteSeq)
    ensures |rb| == ROUTER_PLACEHOLDER_LEN
  {
    ToBigEndian(router, ROUTER_PLACEHOLDER_LEN)
  }

  lemma RouterSplit(router: nat, k: nat)
    requires router < ADDRESSES && k <= ROUTER_PLACEHOLDER_LEN
    ensures var rb := RouterBytes(router);
      && router == BigEndian(rb[..k]) * Pow256(ROUTER_PLACEHOLDER_LEN - k) + BigEndian(rb[k..])
      && BigEndian(rb[k..]) < Pow256(ROUTER_PLACEHOLDER_LEN - k)
  {
    hide Pow256, BigEndian, ToBigEndian;
    var rb := RouterBytes(router);
    Powers();
    BigEndianRoundTrip(router, ROUTER_PLACEHOLDER_LEN);
    assert rb == rb[..k] + rb[k..];
    BigEndianConcat(rb[..k], rb[k..]);
    BigEndianBound(rb[k..]);
  }

  /** A left shift by whole bytes drops what leaves the word. */
  lemma ShlBytes(hi: nat, lo: nat, b: nat)
    requires b <= 32 && lo < Pow256(32 - b)
    ensures ShiftLeft(hi * Pow256(32 - b) + lo, Pow2(8 * b), WORD) == lo * Pow256(b)
  {
    hide Pow256, Pow2;
    Powers();
    Pow2Is256(b);
    Pow256Sum(32 - b, b);
    var p, q := Pow256(b), Pow256(32 - b);
    assert (hi * q + lo) * p == hi * (q * p) + lo * p;
    assert lo * p < q * p by {
      Scale(lo, q, p);
    }
    DivMod(hi, WORD, lo * p);
  }

  lemma ShrBytes(hi: nat, lo: nat, n: nat)
    requires lo < Pow256(n)
    ensures ShiftRight(hi * Pow256(n) + lo, Pow2(8 * n)) == hi
  {
    hide Pow256, Pow2;
    Pow2Is256(n);
    DivMod(hi, Pow256(n), lo);
  }

  lemma EvalShifts(router: nat, bits: nat)
    ensures Eval(Router, router) == router
    ensures Eval(Shl(Router, bits), router) == ShiftLeft(router, Pow2(bits), WORD)
    ensures Eval(Shr(Router, bits), router) == ShiftRight(router, Pow2(bits))
  {
    hide Pow2, ShiftLeft, ShiftRight;
  }

  // ---------------------------------------------------------------------
  // One full word

  /** The chunk with the part of the address that falls into it. */
  function Placed(chunk: ByteSeq, offset: nat, start: nat, rb: ByteSeq): (r: ByteSeq)
    requires |rb| == ROUTER_PLACEHOLDER_LEN
    ensures |r| == |chunk|
  {
    seq(|chunk|, p requires 0 <= p < |chunk| =>
      if start <= offset + p < start + ROUTER_PLACEHOLDER_LEN then rb[offset + p - start] else chunk[p])
  }

  lemma FullInWord(chunk: ByteSeq, s: nat, router: nat)
    requires |chunk| == CHUNK_SIZE && s <= CHUNK_SIZE - ROUTER_PLACEHOLDER_LEN && router < ADDRESSES
    ensures var hole, bits := Zeroed(chunk, s, s + ROUTER_PLACEHOLDER_LEN), (CHUNK_SIZE - ROUTER_PLACEHOLDER_LEN - s) * 8;
      && BitOr(BigEndian(hole), ShiftLeft(router, Pow2(bits), WORD)) ==
        BigEndian(chunk[..s] + RouterBytes(router) + chunk[s + ROUTER_PLACEHOLDER_LEN..])
      && (bits == 0 ==> ShiftLeft(router, Pow2(bits), WORD) == router)
  {
    hide Pow256, Pow2, BigEndian, ToBigEndian, ShiftLeft;
    var rb := RouterBytes(router);
    var a, b := chunk[..s], chunk[s + ROUTER_PLACEHOLDER_LEN..];
    assert Zeroed(chunk, s, s + ROUTER_PLACEHOLDER_LEN) == a + Zeros(|rb|) + b;
    Place(a, rb, b);
    RouterSplit(router, 0);
    assert rb[0..] == rb && rb[..0] == [];
    BigEndianBound(rb);
    EmptyIsZero();
    Powers();
    Pow256Sum(ROUTER_PLACEHOLDER_LEN, 12 - |b|);
    Grow(router, Pow256(ROUTER_PLACEHOLDER_LEN), Pow256(12 - |b|));
    ShlBytes(0, router, |b|);
    OnePow();
  }

  lemma EmptyIsZero()
    ensures BigEndian([]) == 0
  {
  }

  lemma OnePow()
    ensures Pow256(0) == 1
  {
  }

  lemma Grow(x: nat, y: nat, p: nat)
    requires x < y && p > 0
    ensures x < y * p
  {
  }

  lemma StartInWord(chunk: ByteSeq, s: nat, router: nat)
    requires |chunk| == CHUNK_SIZE && CHUNK_SIZE - ROUTER_PLACEHOLDER_LEN < s < CHUNK_SIZE && router < ADDRESSES
    ensures var k := CHUNK_SIZE - s;
      BitOr(BigEndian(Zeroed(chunk, s, CHUNK_SIZE)), ShiftRight(router, Pow2((ROUTER_PLACEHOLDER_LEN - k) * 8))) ==
      BigEndian(chunk[..s] + RouterBytes(router)[..k])
  {
    hide Pow256, Pow2, BigEndian, ToBigEndian, BitOr, ShiftRight;
    var k := CHUNK_SIZE - s;
    var rb := RouterBytes(router);
    assert Zeroed(chunk, s, CHUNK_SIZE) == chunk[..s] + Zeros(k) + [];
    Place(chunk[..s], rb[..k], []);
    OnePow();
    assert chunk[..s] + rb[..k] + [] == chunk[..s] + rb[..k];
    RouterSplit(router, k);
    ShrBytes(BigEndian(rb[..k]), BigEndian(rb[k..]), ROUTER_PLACEHOLDER_LEN - k);
  }

  lemma EndInWord(chunk: ByteSeq, k: nat, router: nat)
    requires |chunk| == CHUNK_SIZE && 0 < k < ROUTER_PLACEHOLDER_LEN && router < ADDRESSES
    ensures BitOr(ShiftLeft(router, Pow2((CHUNK_SIZE - k) * 8), WORD), BigEndian(Zeroed(chunk, 0, k))) ==
            BigEndian(RouterBytes(router)[ROUTER_PLACEHOLDER_LEN - k..] + chunk[k..])
  {
    hide Pow256, Pow2, BigEndian, ToBigEndian, BitOr, ShiftLeft;
    var rb := RouterBytes(router);
    var r := rb[ROUTER_PLACEHOLDER_LEN - k..];
    assert Zeroed(chunk, 0, k) == [] + Zeros(k) + chunk[k..];
    Place([], r, chunk[k..]);
    assert [] + r + chunk[k..] == r + chunk[k..];
    RouterSplit(router, ROUTER_PLACEHOLDER_LEN - k);
    ShlBytes(BigEndian(rb[..ROUTER_PLACEHOLDER_LEN - k]), BigEndian(r), CHUNK_SIZE - k);
  }

  /** On a full word the emitted expression is the word with its part of the address. */
  lemma WordFor(chunk: ByteSeq, offset: nat, start: nat, router: nat)
    requires |chunk| == CHUNK_SIZE && router < ADDRESSES
    ensures Eval(EmitWord(chunk, offset, start), router) == BigEndian(Placed(chunk, offset, start, RouterBytes(router)))
  {
    hide Pow256, Pow2, BigEndian, ToBigEndian, ShiftLeft, ShiftRight, BitOr;
    var rb := RouterBytes(router);
    var target := Placed(chunk, offset, start, rb);
    var end, chunkEnd := start + ROUTER_PLACEHOLDER_LEN, offset + CHUNK_SIZE;
    if offset <= start && chunkEnd >= end {
      var s := start - offset;
      FullInWord(chunk, s, router);
      EvalShifts(router, (CHUNK_SIZE - ROUTER_PLACEHOLDER_LEN - s) * 8);
      assert target == chunk[..s] + rb + chunk[s + ROUTER_PLACEHOLDER_LEN..];
    } else if offset < start < chunkEnd {
      var s := start - offset;
      StartInWord(chunk, s, router);
      EvalShifts(router, (ROUTER_PLACEHOLDER_LEN - (chunkEnd - start)) * 8);
      assert target == chunk[..s] + rb[..CHUNK_SIZE - s];
    } else if start <= offset < end {
      var k := end - offset;
      EndInWord(chunk, k, router);
      EvalShifts(router, (CHUNK_SIZE - k) * 8);
      assert target == rb[ROUTER_PLACEHOLDER_LEN - k..] + chunk[k..];
    } else {
      assert target == chunk == chunk + Zeros(0);
    }
  }

  // ---------------------------------------------------------------------
  // The last, short chunk

  function Padded(chunk: ByteSeq): (r: ByteSeq)
    requires |chunk| <= CHUNK_SIZE
    ensures |r| == CHUNK_SIZE
  {
    chunk + Zeros(CHUNK_SIZE - |chunk|)
  }

  /** A part of the placeholder falls into the word at the offset. */
  predicate Overlaps(offset: nat, start: nat) {
    offset < start + ROUTER_PLACEHOLDER_LEN && start < offset + CHUNK_SIZE
  }

  /** All bytes of the chunk outside the placeholder are zero. */
  predicate OnlyPlaceholder(chunk: ByteSeq, offset: nat, start: nat) {
    forall p :: 0 <= p < |chunk| && !(start <= offset + p < start + ROUTER_PLACEHOLDER_LEN) ==> chunk[p] == 0
  }

  /** The literal that is emitted for a word that overlaps the placeholder. */
  function Hole(chunk: ByteSeq, offset: nat, start: nat): (r: ByteSeq)
    ensures |r| == |chunk|
    ensures forall p :: 0 <= p < |r| ==>
      r[p] == if start <= offset + p < start + ROUTER_PLACEHOLDER_LEN then 0 else chunk[p]
  {
    Zeroed(chunk, if start < offset then 0 else start - offset,
           if start + ROUTER_PLACEHOLDER_LEN < offset then 0 else start + ROUTER_PLACEHOLDER_LEN - offset)
  }

  /** The address part of an emitted word depends on the offsets only, and is zero for the zero address. */
  function AddressPart(offset: nat, start: nat, router: nat): nat
    requires Overlaps(offset, start)
  {
    if offset <= start && offset + CHUNK_SIZE >= start + ROUTER_PLACEHOLDER_LEN then
      var bits := (CHUNK_SIZE - ROUTER_PLACEHOLDER_LEN - (start - offset)) * 8;
      if bits == 0 then router else ShiftLeft(router, Pow2(bits), WORD)
    else if offset < start then
      ShiftRight(router, Pow2((ROUTER_PLACEHOLDER_LEN - (offset + CHUNK_SIZE - start)) * 8))
    else ShiftLeft(router, Pow2((CHUNK_SIZE - (start + ROUTER_PLACEHOLDER_LEN - offset)) * 8), WORD)
  }

  lemma EmittedParts(chunk: ByteSeq, offset: nat, start: nat, router: nat)
    requires |chunk| <= CHUNK_SIZE && Overlaps(offset, start)
    ensures var x, y := BigEndian(Hole(chunk, offset, start)), AddressPart(offset, start, router);
      Eval(EmitWord(chunk, offset, start), router) in {BitOr(x, y), BitOr(y, x)}
  {
    hide Pow2, BigEndian, ShiftLeft, ShiftRight, BitOr;
    var hole := Hole(chunk, offset, start);
    if offset <= start && offset + CHUNK_SIZE >= start + ROUTER_PLACEHOLDER_LEN {
      EvalShifts(router, (CHUNK_SIZE - ROUTER_PLACEHOLDER_LEN - (start - offset)) * 8);
    } else if offset < start {
      EvalShifts(router, (ROUTER_PLACEHOLDER_LEN - (offset + CHUNK_SIZE - start)) * 8);
      assert hole == Zeroed(chunk, start - offset, CHUNK_SIZE);
    } else {
      EvalShifts(router, (CHUNK_SIZE - (start + ROUTER_PLACEHOLDER_LEN - offset)) * 8);
      assert hole == Zeroed(chunk, 0, start + ROUTER_PLACEHOLDER_LEN - offset);
    }
  }

  lemma AddressZero(offset: nat, start: nat)
    requires Overlaps(offset, start)
    ensures AddressPart(offset, start, 0) == 0
  {
    hide Pow2;
  }

  /** A short chunk of zeros around the placeholder is as good as a padded one. */
  lemma PaddingUnneeded(chunk: ByteSeq, offset: nat, start: nat, router: nat)
    requires |chunk| <= CHUNK_SIZE && Overlaps(offset, start) && OnlyPlaceholder(chunk, offset, start)
    requires start + ROUTER_PLACEHOLDER_LEN <= offset + |chunk| || |chunk| == CHUNK_SIZE
    ensures Eval(EmitWord(chunk, offset, start), router) == Eval(EmitWord(Padded(chunk), offset, start), router)
  {
    hide Pow2, BigEndian, ShiftLeft, ShiftRight, BitOr, EmitWord, AddressPart;
    var padded := Padded(chunk);
    EmittedParts(chunk, offset, start, router);
    EmittedParts(padded, offset, start, router);
    assert Hole(chunk, offset, start) == Zeros(|chunk|);
    assert Hole(padded, offset, start) == Zeros(CHUNK_SIZE);
    BigEndianZeros(|chunk|);
    BigEndianZeros(CHUNK_SIZE);
    OrZero(AddressPart(offset, start, router));
  }

  /** Bytes that are also their own copy moved to the right, behind zeros, are all zero. */
  lemma {:induction false} MovedIsZero(c: ByteSeq, d: nat, p: nat)
    requires d > 0 && p < |c|
    requires forall i :: 0 <= i < |c| ==> (Zeros(d) + c)[i] == c[i]
    ensures c[p] == 0
    decreases p
  {
    assert (Zeros(d) + c)[p] == c[p];
    if p >= d {
      MovedIsZero(c, d, p - d);
    }
  }

  /** The emitted word of chunk `j` starts with the bytes of the chunk, its part of the address in place. */
  predicate WordRight(chunk: ByteSeq, offset: nat, start: nat, router: nat)
    requires |chunk| <= CHUNK_SIZE
  {
    ToBigEndian(Eval(EmitWord(chunk, offset, start), router), CHUNK_SIZE)[..|chunk|] ==
    Placed(chunk, offset, start, RouterBytes(router))
  }

  lemma RightIfPadded(chunk: ByteSeq, offset: nat, start: nat, router: nat)
    requires |chunk| <= CHUNK_SIZE && router < ADDRESSES
    requires Eval(EmitWord(chunk, offset, start), router) == Eval(EmitWord(Padded(chunk), offset, start), router)
    ensures WordRight(chunk, offset, start, router)
  {
    hide Eval, EmitWord, BigEndian, ToBigEndian;
    var padded := Padded(chunk);
    var target := Placed(padded, offset, start, RouterBytes(router));
    WordFor(padded, offset, start, router);
    BigEndianInverse(target);
    assert target[..|chunk|] == Placed(chunk, offset, start, RouterBytes(router));
  }

  lemma ShortLiteral(chunk: ByteSeq)
    requires |chunk| <= CHUNK_SIZE
    ensures ToBigEndian(BigEndian(chunk), CHUNK_SIZE) == Zeros(CHUNK_SIZE - |chunk|) + chunk
  {
    hide BigEndian, ToBigEndian;
    BigEndianConcat(Zeros(CHUNK_SIZE - |chunk|), chunk);
    BigEndianZeros(CHUNK_SIZE - |chunk|);
    BigEndianInverse(Zeros(CHUNK_SIZE - |chunk|) + chunk);
  }

  lemma ZeroRouter(p: nat)
    requires p < ROUTER_PLACEHOLDER_LEN
    ensures RouterBytes(0)[p] == 0
  {
    hide BigEndian, ToBigEndian;
    BigEndianZeros(ROUTER_PLACEHOLDER_LEN);
    BigEndianInverse(Zeros(ROUTER_PLACEHOLDER_LEN));
  }

  /** A short chunk with anything but zeros around the placeholder goes wrong, even for the zero address. */
  lemma ShortGoesWrong(chunk: ByteSeq, offset: nat, start: nat)
    requires |chunk| < CHUNK_SIZE && Overlaps(offset, start) && WordRight(chunk, offset, start, 0)
    ensures OnlyPlaceholder(chunk, offset, start)
  {
    hide Pow2, BigEndian, ToBigEndian, BitOr, Eval, EmitWord, AddressPart;
    var hole := Hole(chunk, offset, start);
    EmittedParts(chunk, offset, start, 0);
    AddressZero(offset, start);
    OrZero(BigEndian(hole));
    ShortLiteral(hole);
    var target := Placed(chunk, offset, start, RouterBytes(0));
    forall p | 0 <= p < |chunk|
      ensures target[p] == hole[p]
    {
      if start <= offset + p < start + ROUTER_PLACEHOLDER_LEN {
        ZeroRouter(offset + p - start);
      }
    }
    var moved := Zeros(CHUNK_SIZE - |chunk|) + hole;
    assert forall p :: 0 <= p < |chunk| ==> moved[p] == moved[..|chunk|][p] == hole[p];
    forall p | 0 <= p < |chunk|
      ensures hole[p] == 0
    {
      MovedIsZero(hole, CHUNK_SIZE - |chunk|, p);
    }
  }

  /** For one chunk: right for every address exactly when it is full, has no part of the placeholder, or is zero
      around it. */
  lemma WordExact(chunk: ByteSeq, offset: nat, start: nat)
    requires |chunk| <= CHUNK_SIZE
    requires start + ROUTER_PLACEHOLDER_LEN <= offset + |chunk| || |chunk| == CHUNK_SIZE
    ensures (forall router: nat :: router < ADDRESSES ==> WordRight(chunk, offset, start, router)) <==>
            |chunk| == CHUNK_SIZE || !Overlaps(offset, start) || OnlyPlaceholder(chunk, offset, start)
  {
    hide WordRight, OnlyPlaceholder, Eval;
    if |chunk| == CHUNK_SIZE || !Overlaps(offset, start) || OnlyPlaceholder(chunk, offset, start) {
      forall router: nat | router < ADDRESSES
        ensures WordRight(chunk, offset, start, router)
      {
        if |chunk| == CHUNK_SIZE {
          assert Padded(chunk) == chunk;
        } else if !Overlaps(offset, start) {
          assert Padded(chunk) + Zeros(0) == Padded(chunk);
        } else {
          PaddingUnneeded(chunk, offset, start, router);
        }
        RightIfPadded(chunk, offset, start, router);
      }
    } else if WordRight(chunk, offset, start, 0) {
      ShortGoesWrong(chunk, offset, start);
    }
  }

  // ---------------------------------------------------------------------
  // The whole contract

  /** The bytecode with the address in place of the placeholder. */
  function WithRouter(code: ByteSeq, start: nat, router: nat): (r: ByteSeq)
    requires start + ROUTER_PLACEHOLDER_LEN <= |code|
    ensures |r| == |code|
  {
    code[..start] + RouterBytes(router) + code[start + ROUTER_PLACEHOLDER_LEN..]
  }

  /** The size fits in 16 bits, and the placeholder ends before a last partial word or is surrounded by zeros
      there. */
  predicate Faithful(code: ByteSeq, start: nat) {
    && |code| < 0x1_0000
    && (start + ROUTER_PLACEHOLDER_LEN <= |code| / CHUNK_SIZE * CHUNK_SIZE ||
        forall p :: |code| / CHUNK_SIZE * CHUNK_SIZE <= p < |code| && !(start <= p < start + ROUTER_PLACEHOLDER_LEN) ==>
          code[p] == 0)
  }

  lemma ChunkOf(code: ByteSeq, start: nat, router: nat, j: nat)
    requires start + ROUTER_PLACEHOLDER_LEN <= |code| && j < ChunkCount(code)
    ensures Chunk(WithRouter(code, start, router), j) ==
            Placed(Chunk(code, j), j * CHUNK_SIZE, start, RouterBytes(router))
  {
    hide ToBigEndian;
    var whole, chunk := WithRouter(code, start, router), Chunk(code, j);
    assert forall p :: 0 <= p < |chunk| ==> Chunk(whole, j)[p] == whole[j * CHUNK_SIZE + p];
  }

  /** Writes at consecutive words leave every word in place. */
  lemma {:induction false} ExecuteWords(writes: seq<Write>, n: nat, m: Memory, router: nat, j: nat)
    requires j < n <= |writes| && forall k :: 0 <= k < n ==> writes[k].offset == k * CHUNK_SIZE
    ensures (j + 1) * CHUNK_SIZE <= MEMORY_SIZE
    ensures Execute(writes, n, m, router)[j * CHUNK_SIZE..(j + 1) * CHUNK_SIZE] ==
            ToBigEndian(Eval(writes[j].word, router), CHUNK_SIZE)
    decreases n
  {
    hide ToBigEndian, Eval;
    assert writes[j].offset == j * CHUNK_SIZE;
    if j < n - 1 {
      ExecuteWords(writes, n - 1, m, router, j);
      assert writes[n - 1].offset == (n - 1) * CHUNK_SIZE;
      var before := Execute(writes, n - 1, m, router);
      var after := Execute(writes, n, m, router);
      assert after[j * CHUNK_SIZE..(j + 1) * CHUNK_SIZE] == before[j * CHUNK_SIZE..(j + 1) * CHUNK_SIZE];
    }
  }

  /** Sequences of one length are equal when their chunks are. */
  lemma ChunksAgree(s: ByteSeq, t: ByteSeq)
    requires |s| == |t|
    ensures s == t <==> forall j: nat :: j < ChunkCount(s) ==> Chunk(s, j) == Chunk(t, j)
  {
    if forall j: nat :: j < ChunkCount(s) ==> Chunk(s, j) == Chunk(t, j) {
      forall p | 0 <= p < |s|
        ensures s[p] == t[p]
      {
        var j := p / CHUNK_SIZE;
        assert Chunk(s, j) == Chunk(t, j);
        assert Chunk(s, j)[p % CHUNK_SIZE] == s[p] && Chunk(t, j)[p % CHUNK_SIZE] == t[p];
      }
    }
  }

  function DeployedCode(code: ByteSeq, start: nat, m: Memory, router: nat): (r: ByteSeq)
    requires |code| < 0x1_0000
    ensures |r| == |code|
  {
    Deployed(Generated(code, start), m, router)
  }

  lemma Slice(s: ByteSeq, len: nat, low: nat, n: nat)
    requires low + n <= len <= |s| && n <= CHUNK_SIZE && low + CHUNK_SIZE <= |s|
    ensures s[..len][low..low + n] == s[low..low + CHUNK_SIZE][..n]
  {
    var left, right := s[..len][low..low + n], s[low..low + CHUNK_SIZE][..n];
    forall i | 0 <= i < n
      ensures left[i] == right[i]
    {
      assert left[i] == s[low + i];
      assert right[i] == s[low + i];
    }
  }

  lemma DeployedChunk(code: ByteSeq, start: nat, m: Memory, router: nat, j: nat)
    requires |code| < 0x1_0000 && j < ChunkCount(code)
    ensures Chunk(DeployedCode(code, start, m, router), j) ==
            ToBigEndian(Eval(EmitWord(Chunk(code, j), j * CHUNK_SIZE, start), router), CHUNK_SIZE)[..|Chunk(code, j)|]
  {
    hide ToBigEndian, Eval, EmitWord, Execute, Cut;
    var c := Generated(code, start);
    assert forall k :: 0 <= k < |c.writes| ==> c.writes[k].offset == k * CHUNK_SIZE;
    ExecuteWords(c.writes, |c.writes|, m, router, j);
    var final := Execute(c.writes, |c.writes|, m, router);
    var n := |Chunk(code, j)|;
    assert DeployedCode(code, start, m, router) == final[..|code|];
    assert (j + 1) * CHUNK_SIZE == j * CHUNK_SIZE + CHUNK_SIZE;
    Slice(final, |code|, j * CHUNK_SIZE, n);
    assert Chunk(final[..|code|], j) == final[..|code|][j * CHUNK_SIZE..j * CHUNK_SIZE + n];
    assert c.writes[j] == EmitWrite(code, start, j);
    var bytes := ToBigEndian(Eval(EmitWord(Chunk(code, j), j * CHUNK_SIZE, start), router), CHUNK_SIZE);
    assert final[j * CHUNK_SIZE..j * CHUNK_SIZE + CHUNK_SIZE] == bytes;
  }

  lemma RightWord(code: ByteSeq, start: nat, m: Memory, router: nat, j: nat)
    requires start + ROUTER_PLACEHOLDER_LEN <= |code| < 0x1_0000 && j < ChunkCount(code)
    ensures Chunk(DeployedCode(code, start, m, router), j) == Chunk(WithRouter(code, start, router), j) <==>
            WordRight(Chunk(code, j), j * CHUNK_SIZE, start, router)
  {
    hide ToBigEndian, Eval, EmitWord, Execute, Placed, WithRouter, DeployedCode;
    DeployedChunk(code, start, m, router, j);
    ChunkOf(code, start, router, j);
  }

  ghost predicate RightForAll(code: ByteSeq, start: nat, j: nat)
    requires j < ChunkCount(code)
  {
    forall router: nat :: router < ADDRESSES ==> WordRight(Chunk(code, j), j * CHUNK_SIZE, start, router)
  }

  /** A word is right for every address, as `WordExact` says. */
  predicate WordFits(code: ByteSeq, start: nat, j: nat)
    requires j < ChunkCount(code)
  {
    var chunk, offset := Chunk(code, j), j * CHUNK_SIZE;
    |chunk| == CHUNK_SIZE || !Overlaps(offset, start) || OnlyPlaceholder(chunk, offset, start)
  }

  lemma FaithfulByWords(code: ByteSeq, start: nat)
    requires start + ROUTER_PLACEHOLDER_LEN <= |code|
    ensures Faithful(code, start) <==>
            |code| < 0x1_0000 && forall j: nat :: j < ChunkCount(code) ==> WordFits(code, start, j)
  {
    var whole := |code| / CHUNK_SIZE;
    if |code| % CHUNK_SIZE != 0 {
      assert ChunkCount(code) == whole + 1;
      var last := Chunk(code, whole);
      assert forall p :: 0 <= p < |last| ==> last[p] == code[whole * CHUNK_SIZE + p];
      assert WordFits(code, start, whole) <==>
             start + ROUTER_PLACEHOLDER_LEN <= whole * CHUNK_SIZE || OnlyPlaceholder(last, whole * CHUNK_SIZE, start);
      assert OnlyPlaceholder(last, whole * CHUNK_SIZE, start) <==>
        forall p :: whole * CHUNK_SIZE <= p < |code| && !(start <= p < start + ROUTER_PLACEHOLDER_LEN) ==> code[p] == 0 by
      {
        if OnlyPlaceholder(last, whole * CHUNK_SIZE, start) {
          forall p | whole * CHUNK_SIZE <= p < |code| && !(start <= p < start + ROUTER_PLACEHOLDER_LEN)
            ensures code[p] == 0
          {
            assert last[p - whole * CHUNK_SIZE] == 0;
          }
        }
      }
    }
    forall j: nat | j < whole
      ensures WordFits(code, start, j)
    {
      assert |Chunk(code, j)| == CHUNK_SIZE;
    }
  }

  lemma ByWords(code: ByteSeq, start: nat, m: Memory, router: nat)
    requires start + ROUTER_PLACEHOLDER_LEN <= |code| < 0x1_0000
    ensures DeployedCode(code, start, m, router) == WithRouter(code, start, router) <==>
            forall j: nat :: j < ChunkCount(code) ==> WordRight(Chunk(code, j), j * CHUNK_SIZE, start, router)
  {
    hide DeployedCode, WithRouter, WordRight, Chunk;
    ChunksAgree(DeployedCode(code, start, m, router), WithRouter(code, start, router));
    forall j: nat | j < ChunkCount(code)
      ensures Chunk(DeployedCode(code, start, m, router), j) == Chunk(WithRouter(code, start, router), j) <==>
        WordRight(Chunk(code, j), j * CHUNK_SIZE, start, router)
    {
      RightWord(code, start, m, router, j);
    }
  }

  lemma ChunkFits(code: ByteSeq, start: nat, j: nat)
    requires start + ROUTER_PLACEHOLDER_LEN <= |code| && j < ChunkCount(code)
    ensures RightForAll(code, start, j) <==> WordFits(code, start, j)
  {
    hide WordRight, OnlyPlaceholder;
    WordExact(Chunk(code, j), j * CHUNK_SIZE, start);
  }

  /** For every address, the code deployed on this memory is the bytecode with the address in place. */
  ghost predicate RebuildsAll(code: ByteSeq, start: nat, m: Memory)
    requires start + ROUTER_PLACEHOLDER_LEN <= |code|
  {
    forall router: nat :: router < ADDRESSES ==>
      Deployed(Generated(code, start), m, router) == WithRouter(code, start, router)
  }

  /** Main result: on every initial memory, for every address, the deployed code is the bytecode with the address
      in place of the placeholder if and only if the bytecode is as `Faithful` says. */
  lemma GeneratedExact(code: ByteSeq, start: nat, m: Memory)
    requires start + ROUTER_PLACEHOLDER_LEN <= |code|
    ensures RebuildsAll(code, start, m) <==> Faithful(code, start)
  {
    hide Deployed, WithRouter, Faithful, WordRight, WordFits;
    FaithfulByWords(code, start);
    if |code| >= 0x1_0000 {
      assert |Deployed(Generated(code, start), m, 0)| != |WithRouter(code, start, 0)|;
    } else {
      if Faithful(code, start) {
        forall router: nat | router < ADDRESSES
          ensures Deployed(Generated(code, start), m, router) == WithRouter(code, start, router)
        {
          forall j: nat | j < ChunkCount(code)
            ensures WordRight(Chunk(code, j), j * CHUNK_SIZE, start, router)
          {
            ChunkFits(code, start, j);
          }
          ByWords(code, start, m, router);
        }
      }
      if RebuildsAll(code, start, m) {
        forall j: nat | j < ChunkCount(code)
          ensures WordFits(code, start, j)
        {
          forall router: nat | router < ADDRESSES
            ensures WordRight(Chunk(code, j), j * CHUNK_SIZE, start, router)
          {
            ByWords(code, start, m, router);
          }
          ChunkFits(code, start, j);
        }
      }
    }
  }

  /** A placeholder followed by one nonzero byte in a short last word: the generated contract is wrong. */
  lemma ShortTailBreaks(m: Memory)
    ensures var code := ROUTER_PLACEHOLDER + [1]; IsFirstPlaceholder(code, 0) && !RebuildsAll(code, 0, m)
  {
    var code: ByteSeq := ROUTER_PLACEHOLDER + [1];
    assert code[0..ROUTER_PLACEHOLDER_LEN] == ROUTER_PLACEHOLDER;
    assert code[ROUTER_PLACEHOLDER_LEN] == 1;
    assert !Faithful(code, 0);
    GeneratedExact(code, 0, m);
  }
}
