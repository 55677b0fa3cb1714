/**
 The generator of the `Clones` library: from the bytecode of a proxy contract
 with a placeholder for the router's address it emits statements that rebuild
 the bytecode in memory, word by word, with the address in place.
 */
module Clones {
  import opened Base
  import opened Bytes

  const CHUNK_SIZE := 32
  const ROUTER_PLACEHOLDER_LEN := 20
  const ROUTER_PLACEHOLDER: ByteSeq := Repeat(0xee, ROUTER_PLACEHOLDER_LEN)

  /** Addresses are numbers below this one, two to the power of 160. */
  const ADDRESSES: nat := 0x1_0000_0000_0000_0000_0000_0000_0000_0000_0000_0000

  /** Two to the power of 256. */
  const WORD: nat := 0x1_0000_0000_0000_0000_0000_0000_0000_0000_0000_0000_0000_0000_0000_0000_0000_0000

  // ---------------------------------------------------------------------
  // The emitted statements and what they mean

  /** 256-bit expressions over the router's address. */
  datatype Expr =
    | Literal(digits: ByteSeq)
    | Router
    | Shl(e: Expr, bits: nat)
    | Shr(e: Expr, bits: nat)
    | Or(left: Expr, right: Expr)

  datatype Write = WriteWord(offset: Offset, word: Expr)

  datatype Contract = Contract(size: Offset, writes: seq<Write>)

  function Pow2(n: nat): (p: nat)
    ensures p > 0
  {
    if n == 0 then 1 else 2 * Pow2(n - 1)
  }

  function BitOr(x: nat, y: nat): nat
    decreases x + y
  {
    if x == 0 && y == 0 then 0
    else 2 * BitOr(x / 2, y / 2) + if x % 2 == 1 || y % 2 == 1 then 1 else 0
  }

  /** `power` is the power of two of the shift; what does not fit below `modulus` is lost. */
  function ShiftLeft(x: nat, power: nat, modulus: nat): nat
    requires modulus > 0
  {
    x * power % modulus
  }

  function ShiftRight(x: nat, power: nat): nat
    requires power > 0
  {
    x / power
  }

  function Eval(e: Expr, router: nat): nat {
    match e
    case Literal(digits) => BigEndian(digits)
    case Router => router
    case Shl(x, bits) => ShiftLeft(Eval(x, router), Pow2(bits), WORD)
    case Shr(x, bits) => ShiftRight(Eval(x, router), Pow2(bits))
    case Or(x, y) => BitOr(Eval(x, router), Eval(y, router))
  }

  const MEMORY_SIZE := 0x1_0020

  /** The part of memory that 16-bit offsets reach. */
  type Memory = m: ByteSeq | |m| == MEMORY_SIZE witness Zeros(MEMORY_SIZE)

  type Offset = x: int | 0 <= x < 0x1_0000

  function Store(m: Memory, offset: Offset, word: nat): Memory {
    m[..offset] + ToBigEndian(word, CHUNK_SIZE) + m[offset + CHUNK_SIZE..]
  }

  /** The memory after the first `n` writes. */
  function Execute(writes: seq<Write>, n: nat, m: Memory, router: nat): Memory
    requires n <= |writes|
  {
    if n == 0 then m
    else Store(Execute(writes, n - 1, m, router), writes[n - 1].offset, Eval(writes[n - 1].word, router))
  }

  /** The code that is deployed when the contract runs on some initial memory. */
  function Deployed(c: Contract, m: Memory, router: nat): (code: ByteSeq)
    ensures |code| == c.size
  {
    Execute(c.writes, |c.writes|, m, router)[..c.size]
  }

  // ---------------------------------------------------------------------
  // The generator

  predicate IsPlaceholder(code: ByteSeq, i: nat) {
    i + ROUTER_PLACEHOLDER_LEN <= |code| && code[i..i + ROUTER_PLACEHOLDER_LEN] == ROUTER_PLACEHOLDER
  }

  predicate IsFirstPlaceholder(code: ByteSeq, i: nat) {
    IsPlaceholder(code, i) && forall k: nat :: k < i ==> !IsPlaceholder(code, k)
  }

  function ChunkCount(code: ByteSeq): nat {
    (|code| + CHUNK_SIZE - 1) / CHUNK_SIZE
  }

  function Chunk(code: ByteSeq, j: nat): (chunk: ByteSeq)
    requires j < ChunkCount(code)
    ensures 0 < |chunk| <= CHUNK_SIZE
  {
    code[j * CHUNK_SIZE..if (j + 1) * CHUNK_SIZE <= |code| then (j + 1) * CHUNK_SIZE else |code|]
  }

  function Zeroed(chunk: ByteSeq, start: nat, end: nat): (r: ByteSeq)
    ensures |r| == |chunk|
  {
    seq(|chunk|, p requires 0 <= p < |chunk| => if start <= p < end then 0 else chunk[p])
  }

  method ReplacePlaceholderWithZeros(chunk: ByteSeq, start: nat, end: nat) returns (modified: ByteSeq)
    requires start <= end <= |chunk|
    ensures modified == Zeroed(chunk, start, end)
  {
    modified := chunk;
    for i := start to end
      invariant modified == Zeroed(chunk, start, i)
    {
      modified := modified[i := 0];
    }
  }

  /** The word for the chunk that starts at `offset`, with the placeholder at `start`. */
  function EmitWord(chunk: ByteSeq, offset: nat, start: nat): Expr {
    var end := start + ROUTER_PLACEHOLDER_LEN;
    var chunkEnd := offset + CHUNK_SIZE;
    if offset <= start && chunkEnd >= end then
      var inChunk := start - offset;
      var bits := (CHUNK_SIZE - ROUTER_PLACEHOLDER_LEN - inChunk) * 8;
      var literal := Literal(Zeroed(chunk, inChunk, inChunk + ROUTER_PLACEHOLDER_LEN));
      if bits == 0 then Or(literal, Router) else Or(literal, Shl(Router, bits))
    else if offset < start && chunkEnd > start && chunkEnd <= end then
      Or(Literal(Zeroed(chunk, start - offset, CHUNK_SIZE)), Shr(Router, (ROUTER_PLACEHOLDER_LEN - (chunkEnd - start)) * 8))
    else if offset >= start && offset < end && chunkEnd > end then
      Or(Shl(Router, (CHUNK_SIZE - (end - offset)) * 8), Literal(Zeroed(chunk, 0, end - offset)))
    else Literal(chunk + Zeros(if |chunk| < CHUNK_SIZE then CHUNK_SIZE - |chunk| else 0))
  }

  /** Sizes and offsets are cut to 16 bits. */
  function Cut(x: nat): (r: Offset)
    ensures r == x <==> x < 0x1_0000
  {
    x % 0x1_0000
  }

  function EmitWrite(code: ByteSeq, start: nat, j: nat): Write
    requires j < ChunkCount(code)
  {
    WriteWord(Cut(j * CHUNK_SIZE), EmitWord(Chunk(code, j), j * CHUNK_SIZE, start))
  }

  function Generated(code: ByteSeq, start: nat): Contract {
    Contract(Cut(|code|),
             seq(ChunkCount(code), j requires 0 <= j < ChunkCount(code) => EmitWrite(code, start, j)))
  }

  method FindPlaceholder(code: ByteSeq) returns (r: Option<nat>)
    ensures r.Some? ==> IsFirstPlaceholder(code, r.value)
    ensures r.None? ==> forall i: nat :: !IsPlaceholder(code, i)
  {
    for i := 0 to |code|
      invariant forall k: nat :: k < i ==> !IsPlaceholder(code, k)
    {
      if i + ROUTER_PLACEHOLDER_LEN <= |code| && code[i..i + ROUTER_PLACEHOLDER_LEN] == ROUTER_PLACEHOLDER {
        return Some(i);
      }
    }
    r := None;
  }

  /** `None` is the panic on bytecode without a placeholder. */
  method GenerateToFile(code: ByteSeq) returns (r: Option<Contract>)
    ensures r.None? <==> forall i: nat :: !IsPlaceholder(code, i)
    ensures r.Some? ==> exists i: nat :: IsFirstPlaceholder(code, i) && r.value == Generated(code, i)
  {
    var found := FindPlaceholder(code);
    if found.None? {
      return None;
    }
    var start := found.value;
    var writes: seq<Write> := [];
    for j := 0 to ChunkCount(code)
      invariant |writes| == j
      invariant forall k: nat :: k < j ==> writes[k] == EmitWrite(code, start, k)
    {
      var word := EmitChunk(code, start, j);
      writes := writes + [WriteWord(Cut(j * CHUNK_SIZE), word)];
    }
    assert writes == Generated(code, start).writes;
    assert IsPlaceholder(code, start);
    r := Some(Contract(Cut(|code|), writes));
  }

  /** The body of the loop over the chunks. */
  method EmitChunk(code: ByteSeq, start: nat, j: nat) returns (word: Expr)
    requires start + ROUTER_PLACEHOLDER_LEN <= |code| && j < ChunkCount(code)
    ensures word == EmitWord(Chunk(code, j), j * CHUNK_SIZE, start)
  {
    var chunk := Chunk(code, j);
    var offset, end := j * CHUNK_SIZE, start + ROUTER_PLACEHOLDER_LEN;
    var chunkEnd := offset + CHUNK_SIZE;
    if offset <= start && chunkEnd >= end {
      var inChunk := start - offset;
      var modified := ReplacePlaceholderWithZeros(chunk, inChunk, inChunk + ROUTER_PLACEHOLDER_LEN);
      var bits := (CHUNK_SIZE - ROUTER_PLACEHOLDER_LEN - inChunk) * 8;
      if bits == 0 {
        word := Or(Literal(modified), Router);
      } else {
        word := Or(Literal(modified), Shl(Router, bits));
      }
    } else if offset < start && chunkEnd > start && chunkEnd <= end {
      var modified := ReplacePlaceholderWithZeros(chunk, start - offset, CHUNK_SIZE);
      word := Or(Literal(modified), Shr(Router, (ROUTER_PLACEHOLDER_LEN - (chunkEnd - start)) * 8));
    } else if offset >= start && offset < end && chunkEnd > end {
      var bytesInChunk := end - offset;
      var modified := ReplacePlaceholderWithZeros(chunk, 0, bytesInChunk);
      word := Or(Shl(Router, (CHUNK_SIZE - bytesInChunk) * 8), Literal(modified));
    } else {
      var digits := chunk;
      if |chunk| < CHUNK_SIZE {
        digits := digits + Zeros(CHUNK_SIZE - |chunk|);
      }
      assert digits == chunk + Zeros(if |chunk| < CHUNK_SIZE then CHUNK_SIZE - |chunk| else 0);
      word := Literal(digits);
    }
  }
}
