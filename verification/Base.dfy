/** Small failure-compatible datatypes and sequence facts shared by every module. */
module Base {
  datatype Option<+T> = None | Some(value: T)

  datatype Result<+T, +E> = Ok(value: T) | Err(error: E) {
    predicate IsFailure() {
      Err?
    }

    function PropagateFailure<U>(): Result<U, E>
      requires Err?
    {
      Err(error)
    }

    function Extract(): T
      requires Ok?
    {
      value
    }
  }

  /** No element occurs at two positions. */
  predicate Distinct<T(==)>(s: seq<T>) {
    forall i, j :: 0 <= i < j < |s| ==> s[i] != s[j]
  }

  function Elements<T>(s: seq<T>): set<T> {
    set x | x in s
  }

  function AsSeq<T>(o: Option<T>): seq<T> {
    if o.Some? then [o.value] else []
  }

  /** The elements of the set, each once, in some order. */
  predicate IsOrderOf<T(==)>(order: seq<T>, elements: set<T>) {
    Distinct(order) && Elements(order) == elements
  }

  function Lookup<K, V>(m: map<K, V>, k: K): Option<V> {
    if k in m then Some(m[k]) else None
  }

  /** Every entry of `m` is an entry of `m'`. */
  predicate Extends<K, V(==)>(m: map<K, V>, m': map<K, V>) {
    forall k :: k in m ==> k in m' && m'[k] == m[k]
  }

  /** How many elements satisfy the predicate. */
  function Count<T>(p: T -> bool, s: seq<T>): nat {
    if s == [] then 0 else Count(p, s[..|s| - 1]) + if p(s[|s| - 1]) then 1 else 0
  }

  lemma {:induction false} CountConcat<T>(p: T -> bool, s: seq<T>, t: seq<T>)
    ensures Count(p, s + t) == Count(p, s) + Count(p, t)
    decreases |t|
  {
    if t == [] {
      assert s + t == s;
    } else {
      assert (s + t)[..|s + t| - 1] == s + t[..|t| - 1];
      CountConcat(p, s, t[..|t| - 1]);
    }
  }

  /** One element more at the front. */
  lemma CountFirst<T>(p: T -> bool, s: seq<T>)
    requires s != []
    ensures Count(p, s) == (if p(s[0]) then 1 else 0) + Count(p, s[1..])
  {
    assert s == [s[0]] + s[1..];
    CountConcat(p, [s[0]], s[1..]);
    assert Count(p, [s[0]]) == Count(p, []) + if p(s[0]) then 1 else 0;
  }

  /** `kept` are the elements of `s` that satisfy the predicate: as many as there are, and each at the position given by how
      many come before it. */
  ghost predicate Keeps<T>(kept: seq<T>, s: seq<T>, p: T -> bool) {
    && |kept| == Count(p, s)
    && forall j :: 0 <= j < |s| && p(s[j]) ==> Count(p, s[..j]) < |kept| && kept[Count(p, s[..j])] == s[j]
  }

  /** One element more at the front. */
  lemma KeepsFirst<T>(kept: seq<T>, s: seq<T>, p: T -> bool)
    requires s != [] && Keeps(kept, s[1..], p)
    ensures Keeps(if p(s[0]) then [s[0]] + kept else kept, s, p)
  {
    var rest, all := s[1..], if p(s[0]) then [s[0]] + kept else kept;
    CountFirst(p, s);
    forall j | 0 <= j < |s| && p(s[j])
      ensures Count(p, s[..j]) < |all| && all[Count(p, s[..j])] == s[j]
    {
      if j > 0 {
        CountFirst(p, s[..j]);
        assert s[..j][1..] == rest[..j - 1] && rest[j - 1] == s[j];
      }
    }
  }

  /** `older` followed by `newer`, unless `older` already failed. */
  function Join<T, E>(older: Result<seq<T>, E>, newer: seq<T>): (r: Result<seq<T>, E>)
    ensures newer == [] ==> r == older
  {
    match older
    case Ok(items) => assert newer == [] ==> items + newer == items; Ok(items + newer)
    case Err(e) => Err(e)
  }

  lemma JoinJoin<T, E>(older: Result<seq<T>, E>, middle: seq<T>, newer: seq<T>)
    ensures Join(Join(older, middle), newer) == Join(older, middle + newer)
  {
    if older.Ok? {
      assert older.value + middle + newer == older.value + (middle + newer);
    }
  }
}
