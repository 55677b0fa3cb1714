/**
 The typed database over one byte-keyed map that also holds content-addressed
 values: key encoding, typed setters, the valid codes and the schedule cleanup.
 */
module TypedDb {
  import opened Base
  import opened Bytes

  type H256 = s: ByteSeq | |s| == 32 witness Zeros(32)
  type U64 = x: int | 0 <= x < 0x1_0000_0000_0000_0000
  type U32 = x: int | 0 <= x < 0x1_0000_0000

  const ZERO_HASH: H256 := Zeros(32)

  datatype Key =
    | BlockSmallData(hash: H256) | BlockEvents(hash: H256)
    | ValidatorSet(era: U64)
    | ProgramToCodeId(hash: H256) | InstrumentedCode(runtime: U32, hash: H256)
    | CodeMetadata(hash: H256) | CodeUploadInfo(hash: H256) | CodeValid(hash: H256)
    | InjectedTransaction(hash: H256)
    | Globals | Config
    | MbProgramStates(hash: H256) | MbOutcome(hash: H256) | MbSchedule(hash: H256)
    | MbMeta(hash: H256) | MbCompactBlock(hash: H256)
    | Promise(hash: H256) | TxReceipt(hash: H256)
    | MbCommittedMessageIds(hash: H256)

  function Discriminant(k: Key): U64 {
    match k
    case BlockSmallData(_) => 0
    case BlockEvents(_) => 1
    case ValidatorSet(_) => 2
    case ProgramToCodeId(_) => 7
    case InstrumentedCode(_, _) => 8
    case CodeMetadata(_) => 9
    case CodeUploadInfo(_) => 10
    case CodeValid(_) => 11
    case InjectedTransaction(_) => 12
    case Globals => 14
    case Config => 15
    case MbProgramStates(_) => 19
    case MbOutcome(_) => 20
    case MbSchedule(_) => 21
    case MbMeta(_) => 22
    case MbCompactBlock(_) => 25
    case Promise(_) => 26
    case TxReceipt(_) => 27
    case MbCommittedMessageIds(_) => 29
  }

  function PrefixOf(discriminant: U64): (p: ByteSeq)
    ensures |p| == 32
  {
    Zeros(24) + ToBigEndian(discriminant, 8)
  }

  function Payload(k: Key): (p: ByteSeq)
    ensures |p| == if k.ValidatorSet? || k.Globals? || k.Config? then 8 else if k.InstrumentedCode? then 36 else 32
  {
    match k
    case ValidatorSet(era) => ToLittleEndian(era, 8)
    case InstrumentedCode(runtime, id) => ToLittleEndian(runtime, 4) + id
    case Globals => Zeros(8)
    case Config => Zeros(8)
    case _ => k.hash
  }

  /** Longer than a hash and no longer than the space the source reserves. */
  function ToBytes(k: Key): (s: ByteSeq)
    ensures 32 < |s| <= 68
  {
    PrefixOf(Discriminant(k)) + Payload(k)
  }

  lemma PowersOf256()
    ensures Pow256(4) == 0x1_0000_0000 && Pow256(8) == 0x1_0000_0000_0000_0000
  {
    assert Pow256(2) == 0x1_0000;
    assert Pow256(4) == 0x1_0000_0000;
    assert Pow256(6) == 0x1_0000_0000_0000;
  }

  lemma PrefixesDiffer(a: U64, b: U64)
    requires PrefixOf(a) == PrefixOf(b)
    ensures a == b
  {
    PowersOf256();
    assert PrefixOf(a)[24..] == ToBigEndian(a, 8) && PrefixOf(b)[24..] == ToBigEndian(b, 8);
    BigEndianRoundTrip(a, 8);
    BigEndianRoundTrip(b, 8);
  }

  lemma SplitKey(k: Key)
    ensures ToBytes(k)[..32] == PrefixOf(Discriminant(k)) && ToBytes(k)[32..] == Payload(k)
  {
  }

  lemma PayloadsDiffer(a: Key, b: Key)
    requires Discriminant(a) == Discriminant(b) && Payload(a) == Payload(b)
    ensures a == b
  {
    PowersOf256();
    match a {
      case ValidatorSet(era) =>
        LittleEndianRoundTrip(era, 8);
        LittleEndianRoundTrip(b.era, 8);
      case InstrumentedCode(runtime, id) =>
        assert Payload(a)[..4] == ToLittleEndian(runtime, 4) && Payload(b)[..4] == ToLittleEndian(b.runtime, 4);
        assert Payload(a)[4..] == id && Payload(b)[4..] == b.hash;
        LittleEndianRoundTrip(runtime, 4);
        LittleEndianRoundTrip(b.runtime, 4);
      case _ =>
    }
  }

  /** Distinct keys have distinct bytes. */
  lemma KeysInjective(a: Key, b: Key)
    requires ToBytes(a) == ToBytes(b)
    ensures a == b
  {
    SplitKey(a);
    SplitKey(b);
    PrefixesDiffer(Discriminant(a), Discriminant(b));
    PayloadsDiffer(a, b);
  }

  lemma ZerosBefore(s: ByteSeq, n: nat)
    ensures BigEndian(Zeros(n) + s) == BigEndian(s)
  {
    BigEndianConcat(Zeros(n), s);
    BigEndianZeros(n);
    assert 0 * Pow256(|s|) == 0;
  }

  /** The layout of a key: the first 32 bytes are the number of its kind, most significant byte first; then comes the hash,
      after a runtime version if there is one, or an era; versions and eras have their least significant byte first. */
  lemma KeyLayout(k: Key)
    ensures BigEndian(ToBytes(k)[..32]) == Discriminant(k)
    ensures k.ValidatorSet? ==> |ToBytes(k)| == 40 && LittleEndian(ToBytes(k)[32..]) == k.era
    ensures k.InstrumentedCode? ==>
              |ToBytes(k)| == 68 && LittleEndian(ToBytes(k)[32..36]) == k.runtime && ToBytes(k)[36..] == k.hash
    ensures k.Globals? || k.Config? ==> ToBytes(k)[32..] == Zeros(8)
    ensures !k.ValidatorSet? && !k.InstrumentedCode? && !k.Globals? && !k.Config? ==> ToBytes(k)[32..] == k.hash
  {
    PowersOf256();
    SplitKey(k);
    ZerosBefore(ToBigEndian(Discriminant(k), 8), 24);
    BigEndianRoundTrip(Discriminant(k), 8);
    if k.ValidatorSet? {
      LittleEndianRoundTrip(k.era, 8);
    } else if k.InstrumentedCode? {
      LittleEndianRoundTrip(k.runtime, 4);
      assert ToBytes(k)[32..36] == Payload(k)[..4] == ToLittleEndian(k.runtime, 4);
      assert ToBytes(k)[36..] == Payload(k)[4..] == k.hash;
    }
  }

  // ---------------------------------------------------------------------
  // The store

  /** What a block's small row holds; `None` is the default meta. */
  datatype SmallData = SmallData(header: Option<ByteSeq>, synced: bool, meta: Option<ByteSeq>)

  const DEFAULT_SMALL := SmallData(None, false, None)

  /** A stored value after decoding: content-addressed data, or the row of a typed key. */
  datatype Value =
    | Content(data: ByteSeq)
    | Small(small: SmallData)
    | Compact(parent: H256)
    | Flag(valid: bool)
    | Row(kind: U64, data: ByteSeq)

  type Store = map<ByteSeq, Value>

  predicate FitsKey(k: Key, v: Value) {
    match k
    case BlockSmallData(_) => v.Small?
    case MbCompactBlock(_) => v.Compact?
    case CodeValid(_) => v.Flag?
    case _ => v.Row? && v.kind == Discriminant(k)
  }

  function Field(s: Store, k: Key): Option<Value> {
    Lookup(s, ToBytes(k))
  }

  /** Every row decodes under its key, every hash holds content, and there is nothing else. */
  ghost predicate WellTyped(s: Store) {
    forall x :: x in s ==>
      (|x| == 32 && s[x].Content?) || exists k :: x == ToBytes(k) && FitsKey(k, s[x])
  }

  /** A row that is there decodes as its getter expects. */
  lemma RowsDecode(s: Store, k: Key)
    requires WellTyped(s) && Field(s, k).Some?
    ensures FitsKey(k, Field(s, k).value)
  {
    var x := ToBytes(k);
    var k' :| x == ToBytes(k') && FitsKey(k', s[x]);
    KeysInjective(k, k');
  }

  /** A typed write changes its own field, no other field and no content-addressed value. */
  lemma SetterFrame(s: Store, k: Key, v: Value)
    requires FitsKey(k, v)
    ensures forall k' :: Field(s[ToBytes(k) := v], k') == if k' == k then Some(v) else Field(s, k')
    ensures forall h: H256 :: Lookup(s[ToBytes(k) := v], h) == Lookup(s, h)
    ensures WellTyped(s) ==> WellTyped(s[ToBytes(k) := v])
  {
    hide ToBytes;
    forall k'
      ensures Field(s[ToBytes(k) := v], k') == if k' == k then Some(v) else Field(s, k')
    {
      if ToBytes(k') == ToBytes(k) {
        KeysInjective(k', k);
      }
    }
  }

  /** A content-addressed write changes no field. */
  lemma ContentFrame(s: Store, h: H256, data: ByteSeq)
    ensures forall k :: Field(s[h := Content(data)], k) == Field(s, k)
    ensures WellTyped(s) ==> WellTyped(s[h := Content(data)])
  {
  }

  function SmallOf(s: Store, block: H256): SmallData {
    match Field(s, BlockSmallData(block))
    case Some(Small(d)) => d
    case _ => DEFAULT_SMALL
  }

  // ---------------------------------------------------------------------
  // Valid codes

  const VALID_PREFIX: ByteSeq := PrefixOf(11)

  /** With the prefix of a validity row, a key is such a row or the hash that equals the prefix. */
  lemma ValidRow(s: Store, x: ByteSeq)
    requires WellTyped(s) && x in s && VALID_PREFIX <= x
    ensures if |x| == 32 then x == VALID_PREFIX else |x| == 64 && x == ToBytes(CodeValid(x[32..])) && s[x].Flag?
  {
    if |x| != 32 {
      var k :| x == ToBytes(k) && FitsKey(k, s[x]);
      SplitKey(k);
      assert x[..32] == VALID_PREFIX;
      PrefixesDiffer(Discriminant(k), 11);
      assert k == CodeValid(k.hash);
    }
  }

  lemma CodeRow(c: H256)
    ensures VALID_PREFIX <= ToBytes(CodeValid(c)) && |ToBytes(CodeValid(c))| == 64 && ToBytes(CodeValid(c))[32..] == c
  {
    SplitKey(CodeValid(c));
    assert ToBytes(CodeValid(c))[..32] == VALID_PREFIX;
  }

  predicate IsValidCode(s: Store, c: H256) {
    Field(s, CodeValid(c)) == Some(Flag(true))
  }

  /** The codes marked valid; `None` where decoding a key panics, which is exactly when the hash that equals
      the prefix of the validity rows is stored. */
  method ValidCodes(s: Store, order: seq<ByteSeq>) returns (r: Option<set<H256>>)
    requires WellTyped(s) && IsScan(order, s, VALID_PREFIX)
    ensures r.None? <==> VALID_PREFIX in s
    ensures r.Some? ==> forall c :: c in r.value <==> IsValidCode(s, c)
  {
    hide WellTyped, ToBytes, PrefixOf;
    var codes: set<H256> := {};
    for n := 0 to |order|
      invariant forall i :: 0 <= i < n ==> |order[i]| == 64
      invariant forall c :: c in codes ==> IsValidCode(s, c)
      invariant forall i :: 0 <= i < n ==> order[i] in s && (s[order[i]] == Flag(true) ==> order[i][32..] in codes)
    {
      var x := order[n];
      assert x in order;
      ValidRow(s, x);
      if |x| != 64 {
        return None;
      }
      var code: H256 := x[32..];
      if s[x] == Flag(true) {
        codes := codes + {code};
      }
    }
    forall c: H256 | IsValidCode(s, c)
      ensures c in codes
    {
      CodeRow(c);
      assert ToBytes(CodeValid(c)) in order;
    }
    assert VALID_PREFIX in s <==> VALID_PREFIX in order;
    r := Some(codes);
  }

  /** A store with one value whose hash equals the prefix: listing the valid codes panics. */
  lemma PrefixHashPanics(data: ByteSeq)
    ensures var s: Store := map[VALID_PREFIX := Content(data)];
      WellTyped(s) && IsScan([VALID_PREFIX], s, VALID_PREFIX) && VALID_PREFIX in s
  {
    var s: Store := map[VALID_PREFIX := Content(data)];
    assert forall x :: x in s ==> x == VALID_PREFIX && |x| == 32;
  }

  // ---------------------------------------------------------------------
  // Cleanup

  const CLEANUP_SAFE_DEPTH := 100

  function ParentOf(s: Store, mb: H256): Option<H256> {
    match Field(s, MbCompactBlock(mb))
    case Some(Compact(parent)) => Some(parent)
    case _ => None
  }

  /** Parents are older: `age` is smaller for a parent than for its child. */
  ghost predicate Acyclic(s: Store, age: H256 -> nat) {
    forall mb: H256 :: ParentOf(s, mb).Some? && ParentOf(s, mb).value != ZERO_HASH ==>
      age(ParentOf(s, mb).value) < age(mb)
  }

  /** The block and its ancestors, as far as compact rows go. */
  ghost function Lineage(s: Store, age: H256 -> nat, mb: H256): (chain: seq<H256>)
    requires Acyclic(s, age)
    ensures forall i :: 0 <= i < |chain| ==> age(chain[i]) <= age(mb) && (i > 0 ==> age(chain[i]) < age(mb))
    decreases age(mb)
  {
    if mb == ZERO_HASH || ParentOf(s, mb).None? then []
    else if ParentOf(s, mb).value == ZERO_HASH then [mb]
    else [mb] + Lineage(s, age, ParentOf(s, mb).value)
  }

  /** The n-th ancestor with a compact row, found by following parents one at a time. */
  function Ancestor(s: Store, mb: H256, n: nat): Option<H256>
    decreases n
  {
    if mb == ZERO_HASH || ParentOf(s, mb).None? then None
    else if n == 0 then Some(mb)
    else Ancestor(s, ParentOf(s, mb).value, n - 1)
  }

  lemma {:induction false} LineageIsAncestors(s: Store, age: H256 -> nat, mb: H256, n: nat)
    requires Acyclic(s, age)
    ensures Ancestor(s, mb, n) == if n < |Lineage(s, age, mb)| then Some(Lineage(s, age, mb)[n]) else None
    decreases n
  {
    if mb != ZERO_HASH && ParentOf(s, mb).Some? && n > 0 {
      LineageIsAncestors(s, age, ParentOf(s, mb).value, n - 1);
    }
  }

  lemma {:induction false} LineageDistinct(s: Store, age: H256 -> nat, mb: H256)
    requires Acyclic(s, age)
    ensures Distinct(Lineage(s, age, mb))
    decreases age(mb)
  {
    if mb != ZERO_HASH && ParentOf(s, mb).Some? && ParentOf(s, mb).value != ZERO_HASH {
      LineageDistinct(s, age, ParentOf(s, mb).value);
    }
  }

  /** The schedule keys of the blocks from index `low` on. */
  function ScheduleKeys(chain: seq<H256>, low: nat): set<ByteSeq> {
    set i | low <= i < |chain| :: ToBytes(MbSchedule(chain[i]))
  }

  /** The store after cleanup, and the number of blocks it covered. */
  ghost function Cleaned(s: Store, age: H256 -> nat, latest: H256): (Store, nat)
    requires Acyclic(s, age)
  {
    var chain := Lineage(s, age, latest);
    (s - ScheduleKeys(chain, CLEANUP_SAFE_DEPTH + 1),
     if |chain| > CLEANUP_SAFE_DEPTH + 1 then |chain| - CLEANUP_SAFE_DEPTH - 1 else 0)
  }

  lemma KeyGone(chain: seq<H256>, low: nat, k: Key)
    ensures ToBytes(k) in ScheduleKeys(chain, low) <==>
            k.MbSchedule? && exists i :: low <= i < |chain| && chain[i] == k.hash
  {
    hide ToBytes;
    if ToBytes(k) in ScheduleKeys(chain, low) {
      var i :| low <= i < |chain| && ToBytes(k) == ToBytes(MbSchedule(chain[i]));
      KeysInjective(k, MbSchedule(chain[i]));
    }
  }

  /** Deleting schedule rows leaves all parents in place. */
  lemma DeletesKeepParents(s: Store, chain: seq<H256>, low: nat, mb: H256)
    ensures ParentOf(s - ScheduleKeys(chain, low), mb) == ParentOf(s, mb)
  {
    hide ToBytes;
    KeyGone(chain, low, MbCompactBlock(mb));
  }

  lemma LineageStep(s: Store, age: H256 -> nat, mb: H256)
    requires Acyclic(s, age) && mb != ZERO_HASH
    ensures Lineage(s, age, mb) ==
            if ParentOf(s, mb).None? then [] else [mb] + Lineage(s, age, ParentOf(s, mb).value)
    ensures ParentOf(s, mb).Some? && ParentOf(s, mb).value != ZERO_HASH ==> age(ParentOf(s, mb).value) < age(mb)
  {
  }

  lemma {:induction false} SameParentsSameLineage(s: Store, s': Store, age: H256 -> nat, mb: H256)
    requires Acyclic(s, age) && Acyclic(s', age) && forall h: H256 :: ParentOf(s', h) == ParentOf(s, h)
    ensures Lineage(s', age, mb) == Lineage(s, age, mb)
    decreases age(mb)
  {
    if mb != ZERO_HASH && ParentOf(s, mb).Some? && ParentOf(s, mb).value != ZERO_HASH {
      SameParentsSameLineage(s, s', age, ParentOf(s, mb).value);
    }
  }

  class Database {
    const hash: ByteSeq -> H256
    var store: Store
    var latestComputed: H256

    constructor (hash: ByteSeq -> H256, store: Store, latestComputed: H256)
      ensures this.hash == hash && this.store == store && this.latestComputed == latestComputed
    {
      this.hash := hash;
      this.store := store;
      this.latestComputed := latestComputed;
    }

    /** Every typed setter is such a write. */
    method Put(k: Key, v: Value)
      requires FitsKey(k, v) && WellTyped(store)
      modifies this`store
      ensures WellTyped(store)
      ensures forall k' :: Field(store, k') == if k' == k then Some(v) else Field(old(store), k')
      ensures forall h: H256 :: Lookup(store, h) == Lookup(old(store), h)
    {
      hide WellTyped;
      SetterFrame(store, k, v);
      store := store[ToBytes(k) := v];
    }

    method WriteContent(data: ByteSeq) returns (h: H256)
      requires WellTyped(store)
      modifies this`store
      ensures WellTyped(store) && h == hash(data) && Lookup(store, h) == Some(Content(data))
      ensures forall k :: Field(store, k) == Field(old(store), k)
      ensures forall h': H256 :: h' != h ==> Lookup(store, h') == Lookup(old(store), h')
    {
      hide WellTyped;
      h := hash(data);
      ContentFrame(store, h, data);
      store := store[h := Content(data)];
    }

    /** A read, a change and a write of the small row of one block. */
    method MutateSmallData(block: H256, f: SmallData -> SmallData)
      requires WellTyped(store)
      modifies this`store
      ensures WellTyped(store) && SmallOf(store, block) == f(SmallOf(old(store), block))
      ensures forall k :: k != BlockSmallData(block) ==> Field(store, k) == Field(old(store), k)
      ensures forall h: H256 :: Lookup(store, h) == Lookup(old(store), h)
    {
      var data := SmallOf(store, block);
      Put(BlockSmallData(block), Small(f(data)));
    }

    method SetBlockHeader(block: H256, header: ByteSeq)
      requires WellTyped(store)
      modifies this`store
      ensures WellTyped(store) && SmallOf(store, block) == SmallOf(old(store), block).(header := Some(header))
      ensures forall k :: k != BlockSmallData(block) ==> Field(store, k) == Field(old(store), k)
    {
      MutateSmallData(block, (d: SmallData) => d.(header := Some(header)));
    }

    method SetBlockSynced(block: H256)
      requires WellTyped(store)
      modifies this`store
      ensures WellTyped(store) && SmallOf(store, block) == SmallOf(old(store), block).(synced := true)
      ensures forall k :: k != BlockSmallData(block) ==> Field(store, k) == Field(old(store), k)
    {
      MutateSmallData(block, (d: SmallData) => d.(synced := true));
    }

    method MutateBlockMeta(block: H256, f: Option<ByteSeq> -> Option<ByteSeq>)
      requires WellTyped(store)
      modifies this`store
      ensures WellTyped(store)
      ensures SmallOf(store, block) == var d := SmallOf(old(store), block); d.(meta := f(d.meta))
      ensures forall k :: k != BlockSmallData(block) ==> Field(store, k) == Field(old(store), k)
    {
      MutateSmallData(block, (d: SmallData) => d.(meta := f(d.meta)));
    }

    method Cleanup(ghost age: H256 -> nat) returns (pruned: nat)
      requires Acyclic(store, age)
      modifies this`store
      ensures (store, pruned) == Cleaned(old(store), age, latestComputed)
    {
      hide ParentOf, ToBytes, Acyclic, Lineage, ScheduleKeys;
      ghost var start := store;
      ghost var chain := Lineage(store, age, latestComputed);
      var mb := latestComputed;
      var depth: nat := 0;
      pruned := 0;
      NothingDeleted(store, chain);
      while mb != ZERO_HASH
        invariant depth <= |chain|
        invariant store == start - ScheduleKeys(chain[..depth], CLEANUP_SAFE_DEPTH + 1)
        invariant chain[depth..] == Lineage(start, age, mb)
        invariant pruned == if depth > CLEANUP_SAFE_DEPTH + 1 then depth - CLEANUP_SAFE_DEPTH - 1 else 0
        decreases if mb == ZERO_HASH then 0 else age(mb) + 1
      {
        DeletesKeepParents(start, chain[..depth], CLEANUP_SAFE_DEPTH + 1, mb);
        LineageStep(start, age, mb);
        var parent := ParentOf(store, mb);
        if parent.None? {
          break;
        }
        assert chain[depth..][0] == mb;
        DeeperKeys(start, chain, depth);
        if depth > CLEANUP_SAFE_DEPTH {
          store := store - {ToBytes(MbSchedule(mb))};
          pruned := pruned + 1;
        }
        assert chain[depth + 1..] == chain[depth..][1..];
        mb := parent.value;
        depth := depth + 1;
      }
      NoLineage(start, age);
      assert chain[depth..] == [];
      assert chain[..depth] == chain;
    }
  }

  lemma NoLineage(s: Store, age: H256 -> nat)
    requires Acyclic(s, age)
    ensures Lineage(s, age, ZERO_HASH) == []
  {
  }

  lemma NothingDeleted(s: Store, chain: seq<H256>)
    ensures chain[..0] == [] && chain[0..] == chain
    ensures s - ScheduleKeys(chain[..0], CLEANUP_SAFE_DEPTH + 1) == s
  {
    assert ScheduleKeys([], CLEANUP_SAFE_DEPTH + 1) == {};
    assert chain[..0] == [];
  }

  lemma DeeperKeys(s: Store, chain: seq<H256>, depth: nat)
    requires depth < |chain|
    ensures s - ScheduleKeys(chain[..depth + 1], CLEANUP_SAFE_DEPTH + 1) ==
            s - ScheduleKeys(chain[..depth], CLEANUP_SAFE_DEPTH + 1) -
            if depth > CLEANUP_SAFE_DEPTH then {ToBytes(MbSchedule(chain[depth]))} else {}
    ensures depth <= CLEANUP_SAFE_DEPTH ==>
      s - ScheduleKeys(chain[..depth + 1], CLEANUP_SAFE_DEPTH + 1) ==
      s - ScheduleKeys(chain[..depth], CLEANUP_SAFE_DEPTH + 1)
  {
    hide ToBytes;
    var more, fewer := chain[..depth + 1], chain[..depth];
    var last: set<ByteSeq> := if depth > CLEANUP_SAFE_DEPTH then {ToBytes(MbSchedule(chain[depth]))} else {};
    assert forall i :: 0 <= i < depth ==> more[i] == fewer[i];
    assert more[depth] == chain[depth];
    assert ScheduleKeys(more, CLEANUP_SAFE_DEPTH + 1) == ScheduleKeys(fewer, CLEANUP_SAFE_DEPTH + 1) + last;
    assert depth <= CLEANUP_SAFE_DEPTH ==> last == {};
  }

  /** The block is more than 100 parents below the latest one. */
  ghost predicate DeepBelow(s: Store, latest: H256, h: H256) {
    exists n: nat :: n > CLEANUP_SAFE_DEPTH && Ancestor(s, latest, n) == Some(h)
  }

  lemma DeepInLineage(s: Store, age: H256 -> nat, latest: H256, h: H256)
    requires Acyclic(s, age)
    ensures DeepBelow(s, latest, h) <==>
            exists i :: CLEANUP_SAFE_DEPTH + 1 <= i < |Lineage(s, age, latest)| && Lineage(s, age, latest)[i] == h
  {
    hide ParentOf, Acyclic, Lineage;
    var chain := Lineage(s, age, latest);
    forall n: nat
      ensures Ancestor(s, latest, n) == if n < |chain| then Some(chain[n]) else None
    {
      LineageIsAncestors(s, age, latest, n);
    }
    if i :| CLEANUP_SAFE_DEPTH + 1 <= i < |chain| && chain[i] == h {
      assert Ancestor(s, latest, i) == Some(h);
    }
  }

  /** Main result on cleanup: a row goes if and only if it is the schedule of a block more than 100 parents
      below the latest computed one; the newest 101 keep theirs. */
  lemma CleanupExact(s: Store, age: H256 -> nat, latest: H256, k: Key)
    requires Acyclic(s, age)
    ensures Field(Cleaned(s, age, latest).0, k) ==
            if k.MbSchedule? && DeepBelow(s, latest, k.hash) then None else Field(s, k)
  {
    hide ToBytes, ParentOf, Acyclic, Lineage, ScheduleKeys, DeepBelow;
    KeyGone(Lineage(s, age, latest), CLEANUP_SAFE_DEPTH + 1, k);
    if k.MbSchedule? {
      DeepInLineage(s, age, latest, k.hash);
      assert ToBytes(k) in ScheduleKeys(Lineage(s, age, latest), CLEANUP_SAFE_DEPTH + 1) <==> DeepBelow(s, latest, k.hash);
    }
  }

  /** The number that cleanup returns is how many blocks lie more than 100 parents below the latest one. */
  lemma CleanupCount(s: Store, age: H256 -> nat, latest: H256, n: nat)
    requires Acyclic(s, age)
    ensures n < Cleaned(s, age, latest).1 <==> Ancestor(s, latest, CLEANUP_SAFE_DEPTH + 1 + n).Some?
  {
    hide ToBytes, ParentOf, Acyclic, Lineage, ScheduleKeys;
    LineageIsAncestors(s, age, latest, CLEANUP_SAFE_DEPTH + 1 + n);
  }

  /** The latest computed block and the 100 below it keep their schedules. */
  lemma WindowKept(s: Store, age: H256 -> nat, latest: H256, n: nat)
    requires Acyclic(s, age) && n <= CLEANUP_SAFE_DEPTH && Ancestor(s, latest, n).Some?
    ensures var k := MbSchedule(Ancestor(s, latest, n).value);
      Field(Cleaned(s, age, latest).0, k) == Field(s, k)
  {
    hide ToBytes, ParentOf, Acyclic, Lineage, ScheduleKeys;
    LineageIsAncestors(s, age, latest, n);
    LineageDistinct(s, age, latest);
    KeyGone(Lineage(s, age, latest), CLEANUP_SAFE_DEPTH + 1, MbSchedule(Ancestor(s, latest, n).value));
  }

  /** A second cleanup finds the same blocks and changes nothing. */
  lemma CleanupIdempotent(s: Store, age: H256 -> nat, latest: H256)
    requires Acyclic(s, age)
    ensures var (after, pruned) := Cleaned(s, age, latest);
      Acyclic(after, age) && Cleaned(after, age, latest) == (after, pruned)
  {
    hide ToBytes, ParentOf, Lineage, ScheduleKeys;
    var chain := Lineage(s, age, latest);
    var gone := ScheduleKeys(chain, CLEANUP_SAFE_DEPTH + 1);
    var after := s - gone;
    forall h: H256
      ensures ParentOf(after, h) == ParentOf(s, h)
    {
      DeletesKeepParents(s, chain, CLEANUP_SAFE_DEPTH + 1, h);
    }
    SameParentsSameLineage(s, after, age, latest);
    assert after - gone == after;
  }
}
