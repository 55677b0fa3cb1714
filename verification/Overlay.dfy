/**
 A writable overlay over a database that is only read: what was written since
 is in `mem`, what was deleted since is in `erased`.
 */
module Overlay {
  import opened Base
  import opened Bytes

  datatype State = State(base: map<ByteSeq, ByteSeq>, mem: map<ByteSeq, ByteSeq>, erased: set<ByteSeq>) {
    predicate Valid() {
      mem.Keys !! erased
    }

    /** The one map that the overlay stands for. */
    function Visible(): (m: map<ByteSeq, ByteSeq>) {
      map k | k in mem.Keys + (base.Keys - erased) :: if k in mem then mem[k] else base[k]
    }
  }

  function AfterPut(s: State, k: ByteSeq, v: ByteSeq): State {
    s.(mem := s.mem[k := v], erased := s.erased - {k})
  }

  function AfterDelete(s: State, k: ByteSeq): State {
    s.(mem := s.mem - {k}, erased := s.erased + {k})
  }

  function AfterTake(s: State, k: ByteSeq): State {
    if k in s.erased then s
    else if k in s.mem then s.(mem := s.mem - {k})
    else if k in s.base then s.(erased := s.erased + {k})
    else s
  }

  /** The key was written since and is in the base as well. */
  predicate Shadows(s: State, k: ByteSeq) {
    k in s.mem && k in s.base
  }

  /** `entries` lists each entry of `m` with the prefix once, and nothing else. */
  ghost predicate IsListing(entries: seq<(ByteSeq, ByteSeq)>, m: map<ByteSeq, ByteSeq>, prefix: ByteSeq) {
    && (forall i, j :: 0 <= i < j < |entries| ==> entries[i].0 != entries[j].0)
    && (forall k, v :: (k, v) in entries <==> k in m && m[k] == v && prefix <= k)
  }

  /** `entries` lists the entries of `m` under the known keys. */
  ghost predicate Lists(
    entries: seq<(ByteSeq, ByteSeq)>, known: set<ByteSeq>, m: map<ByteSeq, ByteSeq>, prefix: ByteSeq)
  {
    && (forall i, j :: 0 <= i < j < |entries| ==> entries[i].0 != entries[j].0)
    && (forall i :: 0 <= i < |entries| ==>
      && entries[i].0 in known && prefix <= entries[i].0
      && entries[i].0 in m && m[entries[i].0] == entries[i].1)
    && (forall k :: k in known ==> exists i :: 0 <= i < |entries| && entries[i].0 == k)
  }

  lemma ListsMore(
    entries: seq<(ByteSeq, ByteSeq)>, known: set<ByteSeq>, m: map<ByteSeq, ByteSeq>, prefix: ByteSeq, k: ByteSeq)
    requires Lists(entries, known, m, prefix) && k !in known && k in m && prefix <= k
    ensures Lists(entries + [(k, m[k])], known + {k}, m, prefix)
  {
    var more := entries + [(k, m[k])];
    assert more[|entries|].0 == k;
    assert forall i :: 0 <= i < |entries| ==> more[i] == entries[i];
  }

  lemma ListsAll(
    entries: seq<(ByteSeq, ByteSeq)>, known: set<ByteSeq>, m: map<ByteSeq, ByteSeq>, prefix: ByteSeq)
    requires Lists(entries, known, m, prefix) && forall k :: k in m && prefix <= k ==> k in known
    ensures IsListing(entries, m, prefix)
  {
  }

  class KvOverlay {
    const base: map<ByteSeq, ByteSeq>
    var mem: map<ByteSeq, ByteSeq>
    var erased: set<ByteSeq>

    function View(): State
      reads this
    {
      State(base, mem, erased)
    }

    constructor (base: map<ByteSeq, ByteSeq>)
      ensures View() == State(base, map[], {})
    {
      this.base := base;
      mem := map[];
      erased := {};
    }

    method Get(k: ByteSeq) returns (v: Option<ByteSeq>)
      ensures v == Lookup(View().Visible(), k)
    {
      v := Lookup(mem, k);
      if v.None? {
        v := if k !in erased then Lookup(base, k) else None;
      }
    }

    method Contains(k: ByteSeq) returns (found: bool)
      ensures found <==> k in View().Visible()
    {
      found := k in mem || (k !in erased && k in base);
    }

    method Put(k: ByteSeq, v: ByteSeq)
      modifies this
      ensures View() == AfterPut(old(View()), k, v)
      ensures View().Visible() == old(View().Visible())[k := v]
    {
      erased := erased - {k};
      mem := mem[k := v];
    }

    method Delete(k: ByteSeq)
      modifies this
      ensures View() == AfterDelete(old(View()), k)
      ensures View().Visible() == old(View().Visible()) - {k}
    {
      mem := mem - {k};
      erased := erased + {k};
    }

    method Take(k: ByteSeq) returns (v: Option<ByteSeq>)
      requires View().Valid()
      modifies this
      ensures View() == AfterTake(old(View()), k)
      ensures !Shadows(old(View()), k) ==> View().Visible() == old(View().Visible()) - {k}
      ensures v == Lookup(old(View().Visible()), k)
    {
      if k !in erased {
        if k in mem {
          v := Some(mem[k]);
          mem := mem - {k};
          return;
        }
        v := Lookup(base, k);
        if v.Some? {
          erased := erased + {k};
        }
      } else {
        v := None;
      }
    }

    /** `memOrder` and `baseOrder` are the orders in which the two databases list their keys. */
    method IterPrefix(prefix: ByteSeq, memOrder: seq<ByteSeq>, baseOrder: seq<ByteSeq>)
      returns (entries: seq<(ByteSeq, ByteSeq)>)
      requires IsScan(memOrder, mem, prefix) && IsScan(baseOrder, base, prefix)
      ensures IsListing(entries, View().Visible(), prefix)
    {
      var known: set<ByteSeq> := {};
      entries := [];
      ghost var m := View().Visible();
      for n := 0 to |memOrder|
        invariant Lists(entries, known, m, prefix)
        invariant forall i :: 0 <= i < n ==> memOrder[i] in known
      {
        var k := memOrder[n];
        assert k in memOrder;
        if k !in known {
          ListsMore(entries, known, m, prefix, k);
          known := known + {k};
          entries := entries + [(k, mem[k])];
        }
      }
      assert forall k :: k in mem && prefix <= k ==> k in memOrder;
      for n := 0 to |baseOrder|
        invariant Lists(entries, known, m, prefix)
        invariant forall k :: k in mem && prefix <= k ==> k in known
        invariant forall i :: 0 <= i < n && baseOrder[i] in m ==> baseOrder[i] in known
      {
        var k := baseOrder[n];
        assert k in baseOrder;
        if k !in erased && k !in known {
          ListsMore(entries, known, m, prefix, k);
          known := known + {k};
          entries := entries + [(k, base[k])];
        }
      }
      forall k | k in m && prefix <= k
        ensures k in known
      {
        assert k in mem || k in baseOrder;
      }
      ListsAll(entries, known, m, prefix);
    }

    /** Whether the database is empty; `None` where the source is not implemented. */
    method IsEmpty() returns (r: Option<bool>)
      ensures r.Some? ==> (r.value <==> View().Visible() == map[])
      ensures r.None? <==> mem == map[] && base != map[] && erased != {}
    {
      if mem != map[] {
        var k :| k in mem;
        assert k in View().Visible();
        return Some(false);
      }
      if base == map[] {
        return Some(true);
      }
      if erased == {} {
        var k :| k in base;
        assert k in View().Visible();
        return Some(false);
      }
      r := None;
    }
  }

  // ---------------------------------------------------------------------
  // Runs against one plain map

  datatype Op = Put(key: ByteSeq, value: ByteSeq) | Delete(key: ByteSeq) | Take(key: ByteSeq)

  function Apply(s: State, op: Op): State {
    match op
    case Put(k, v) => AfterPut(s, k, v)
    case Delete(k) => AfterDelete(s, k)
    case Take(k) => AfterTake(s, k)
  }

  function ApplyPlain(m: map<ByteSeq, ByteSeq>, op: Op): map<ByteSeq, ByteSeq> {
    match op
    case Put(k, v) => m[k := v]
    case Delete(k) => m - {k}
    case Take(k) => m - {k}
  }

  function Run(base: map<ByteSeq, ByteSeq>, ops: seq<Op>): State {
    if ops == [] then State(base, map[], {}) else Apply(Run(base, ops[..|ops| - 1]), ops[|ops| - 1])
  }

  function RunPlain(base: map<ByteSeq, ByteSeq>, ops: seq<Op>): map<ByteSeq, ByteSeq> {
    if ops == [] then base else ApplyPlain(RunPlain(base, ops[..|ops| - 1]), ops[|ops| - 1])
  }

  /** One operation does to the visible map what it does to a plain one, unless it takes a shadowing key:
      then the value of the base comes back. */
  lemma StepRefines(s: State, op: Op)
    requires s.Valid()
    ensures Apply(s, op).Valid() && Apply(s, op).base == s.base
    ensures Apply(s, op).Visible() ==
            if op.Take? && Shadows(s, op.key) then s.Visible()[op.key := s.base[op.key]]
            else ApplyPlain(s.Visible(), op)
  {
    assert op.Take? && op.key !in s.Visible() ==> s.Visible() - {op.key} == s.Visible();
  }

  lemma {:induction false} RunIsValid(base: map<ByteSeq, ByteSeq>, ops: seq<Op>)
    ensures Run(base, ops).Valid() && Run(base, ops).base == base
  {
    if ops != [] {
      RunIsValid(base, ops[..|ops| - 1]);
      StepRefines(Run(base, ops[..|ops| - 1]), ops[|ops| - 1]);
    }
  }

  /** Up to the n-th operation, no key was taken that had been written since and is in the base as well. */
  predicate NoShadowedTake(base: map<ByteSeq, ByteSeq>, ops: seq<Op>) {
    forall n :: 0 <= n < |ops| && ops[n].Take? ==> !Shadows(Run(base, ops[..n]), ops[n].key)
  }

  predicate Tracks(base: map<ByteSeq, ByteSeq>, ops: seq<Op>) {
    Run(base, ops).Visible() == RunPlain(base, ops)
  }

  lemma StepTracks(base: map<ByteSeq, ByteSeq>, ops: seq<Op>, n: nat)
    requires n < |ops| && Tracks(base, ops[..n])
    ensures Tracks(base, ops[..n + 1]) <==> !(ops[n].Take? && Shadows(Run(base, ops[..n]), ops[n].key))
  {
    assert ops[..n + 1][..n] == ops[..n];
    RunIsValid(base, ops[..n]);
    StepRefines(Run(base, ops[..n]), ops[n]);
  }

  lemma {:induction false} TracksBefore(base: map<ByteSeq, ByteSeq>, ops: seq<Op>, n: nat)
    requires n <= |ops| && NoShadowedTake(base, ops)
    ensures Tracks(base, ops[..n])
  {
    if n == 0 {
      assert State(base, map[], {}).Visible() == base;
    } else {
      TracksBefore(base, ops, n - 1);
      StepTracks(base, ops, n - 1);
    }
  }

  /** Main result: over every run from a fresh overlay, the visible map is the plain map after every
      operation if and only if no take hits a key that was written since and is in the base. */
  lemma RunRefines(base: map<ByteSeq, ByteSeq>, ops: seq<Op>)
    ensures (forall n :: 0 <= n <= |ops| ==> Tracks(base, ops[..n])) <==> NoShadowedTake(base, ops)
  {
    if NoShadowedTake(base, ops) {
      forall n | 0 <= n <= |ops|
        ensures Tracks(base, ops[..n])
      {
        TracksBefore(base, ops, n);
      }
    }
    if forall n :: 0 <= n <= |ops| ==> Tracks(base, ops[..n]) {
      forall n | 0 <= n < |ops| && ops[n].Take?
        ensures !Shadows(Run(base, ops[..n]), ops[n].key)
      {
        assert Tracks(base, ops[..n]) && Tracks(base, ops[..n + 1]);
        StepTracks(base, ops, n);
      }
    }
  }

  /** Taking a key that was overwritten uncovers the value of the base. */
  lemma TakeUncoversBase(k: ByteSeq, before: ByteSeq, after: ByteSeq)
    ensures var ops := [Put(k, after), Take(k)];
      k !in RunPlain(map[k := before], ops) && Run(map[k := before], ops).Visible() == map[k := before]
  {
    var ops := [Put(k, after), Take(k)];
    assert ops[..1] == [Put(k, after)];
    var base := map[k := before];
    assert Run(base, ops[..1]) == State(base, map[k := after], {}) by {
      assert ops[..1][..0] == [];
      assert map[][k := after] == map[k := after];
      assert {} - {k} == {};
    }
    assert map[k := after] - {k} == map[];
    assert Run(base, ops) == State(base, map[], {});
    assert RunPlain(base, ops) == RunPlain(base, ops[..1]) - {k};
  }

  // ---------------------------------------------------------------------
  // The content-addressed overlay

  /** Every value is stored under its own hash. */
  ghost predicate ContentAddressed(hash: ByteSeq -> ByteSeq, m: map<ByteSeq, ByteSeq>) {
    forall k :: k in m ==> hash(m[k]) == k
  }

  ghost predicate CollisionFree(hash: ByteSeq -> ByteSeq) {
    forall x, y :: hash(x) == hash(y) ==> x == y
  }

  lemma WriteKeeps(hash: ByteSeq -> ByteSeq, m: map<ByteSeq, ByteSeq>, data: ByteSeq)
    requires CollisionFree(hash) && ContentAddressed(hash, m)
    ensures ContentAddressed(hash, m[hash(data) := data]) && Extends(m, m[hash(data) := data])
  {
    if hash(data) in m {
      assert m[hash(data)] == data;
    }
  }

  class CasOverlay {
    const hash: ByteSeq -> ByteSeq
    const base: map<ByteSeq, ByteSeq>
    var mem: map<ByteSeq, ByteSeq>

    function Visible(): map<ByteSeq, ByteSeq>
      reads this
    {
      base + mem
    }

    constructor (hash: ByteSeq -> ByteSeq, base: map<ByteSeq, ByteSeq>)
      ensures this.hash == hash && this.base == base && Visible() == base
    {
      this.hash := hash;
      this.base := base;
      mem := map[];
    }

    method Read(h: ByteSeq) returns (v: Option<ByteSeq>)
      ensures v == Lookup(Visible(), h)
    {
      v := Lookup(mem, h);
      if v.None? {
        v := Lookup(base, h);
      }
    }

    method Contains(h: ByteSeq) returns (found: bool)
      ensures found <==> h in Visible()
    {
      found := h in mem || h in base;
    }

    /** A write loses nothing that could be read before. */
    method Write(data: ByteSeq) returns (h: ByteSeq)
      requires CollisionFree(hash) && ContentAddressed(hash, Visible())
      modifies this
      ensures h == hash(data) && Visible() == old(Visible())[h := data]
      ensures ContentAddressed(hash, Visible()) && Extends(old(Visible()), Visible())
    {
      hide CollisionFree, ContentAddressed, Extends;
      h := hash(data);
      WriteKeeps(hash, Visible(), data);
      mem := mem[h := data];
      assert Visible() == old(Visible())[h := data];
    }
  }
}
