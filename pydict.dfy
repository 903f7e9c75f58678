/** A Python `dict`: its items in insertion order. Assigning to a key that is
    already present replaces the value in place and keeps the key's position;
    a new key goes to the end. A dict comprehension `{f(x): g(x) for x in xs}`
    is that assignment done for each `x` in turn. */
module PyDict {
  import opened Python

  type Dict<K, V> = seq<(K, V)>

  /** The first components of a sequence of pairs (for a dict, `list(d)`). */
  function Keys<K, V>(d: seq<(K, V)>): (ks: seq<K>)
  {
    seq(|d|, i requires 0 <= i < |d| => d[i].0)
  }

  /** `d.values()`, in iteration order. */
  function Values<K, V>(d: Dict<K, V>): (vs: seq<V>)
  {
    seq(|d|, i requires 0 <= i < |d| => d[i].1)
  }

  ghost predicate UniqueKeys<K, V>(d: Dict<K, V>)
  {
    forall i, j :: 0 <= i < j < |d| ==> d[i].0 != d[j].0
  }

  /** The first position of `k` in `ks`. */
  function IndexIn<K(==)>(ks: seq<K>, k: K): (r: Option<nat>)
    ensures r.None? <==> k !in ks
    ensures r.Some? ==> r.value < |ks| && ks[r.value] == k
    ensures r.Some? ==> forall j :: 0 <= j < r.value ==> ks[j] != k
  {
    if ks == [] then None
    else if ks[0] == k then Some(0)
    else match IndexIn(ks[1..], k)
      case None => None
      case Some(i) => Some(i + 1)
  }

  /** A position holding `k` with no `k` before it is the first position. */
  lemma {:induction false} IndexAt<K>(ks: seq<K>, i: nat)
    requires i < |ks|
    requires forall j :: 0 <= j < i ==> ks[j] != ks[i]
    ensures IndexIn(ks, ks[i]) == Some(i)
  {
    if i > 0 {
      IndexAt(ks[1..], i - 1);
    }
  }

  /** Appending cannot move the first position of a key already present, nor
      create one for a key the appended part lacks. */
  lemma {:induction false} PrefixIndex<K>(ks: seq<K>, more: seq<K>, k: K)
    requires k in ks || k !in more
    ensures IndexIn(ks + more, k) == IndexIn(ks, k)
  {
    if ks == [] {
      assert ks + more == more;
    } else if ks[0] != k {
      assert (ks + more)[1..] == ks[1..] + more;
      PrefixIndex(ks[1..], more, k);
    }
  }

  /** `d.get(k)`: the value stored under `k`, None where `d[k]` raises KeyError. */
  function Get<K(==), V>(d: Dict<K, V>, k: K): (r: Option<V>)
  {
    match IndexIn(Keys(d), k)
    case None => None
    case Some(i) => Some(d[i].1)
  }

  /** A key has a value exactly when it is one of the dict's keys, and the
      value is stored with it. */
  lemma GetSome<K, V>(d: Dict<K, V>, k: K)
    ensures Get(d, k).Some? <==> k in Keys(d)
    ensures Get(d, k).Some? ==> (k, Get(d, k).value) in d
  {
    if Get(d, k).Some? {
      var i := IndexIn(Keys(d), k).value;
      assert Keys(d)[i] == d[i].0;
      assert d[i] == (k, d[i].1);
    }
  }

  /** With unique keys, the value stored under an item's key is that item's. */
  lemma GetAt<K, V>(d: Dict<K, V>, i: nat)
    requires UniqueKeys(d) && i < |d|
    ensures Get(d, d[i].0) == Some(d[i].1)
  {
    IndexAt(Keys(d), i);
  }

  /** `d[k] = v` */
  function Put<K(==, !new), V>(d: Dict<K, V>, k: K, v: V): (r: Dict<K, V>)
  {
    match IndexIn(Keys(d), k)
    case Some(i) => d[i := (k, v)]
    case None => d + [(k, v)]
  }

  /** Assignment keeps the key order; a new key goes last. */
  lemma PutKeys<K(!new), V>(d: Dict<K, V>, k: K, v: V)
    ensures Keys(Put(d, k, v)) == if k in Keys(d) then Keys(d) else Keys(d) + [k]
  {
    var r := Put(d, k, v);
    if k in Keys(d) {
      assert Keys(r) == Keys(d);
    } else {
      assert Keys(r) == Keys(d) + [k];
    }
  }

  /** After `d[k] = v`, `k` has value `v` and every other key keeps its own. */
  lemma PutGet<K(!new), V>(d: Dict<K, V>, k: K, v: V, k': K)
    ensures Get(Put(d, k, v), k') == if k' == k then Some(v) else Get(d, k')
  {
    var r := Put(d, k, v);
    PutKeys(d, k, v);
    if k !in Keys(d) {
      assert forall j :: 0 <= j < |d| ==> Keys(d)[j] == d[j].0;
      if k' == k {
        IndexAt(Keys(r), |d|);
      } else {
        PrefixIndex(Keys(d), [k], k');
      }
    }
  }

  /** Assignment keeps the keys unique. */
  lemma PutUnique<K(!new), V>(d: Dict<K, V>, k: K, v: V)
    requires UniqueKeys(d)
    ensures UniqueKeys(Put(d, k, v))
  {
    var r := Put(d, k, v);
    PutKeys(d, k, v);
    forall i, j | 0 <= i < j < |r| ensures r[i].0 != r[j].0 {
      assert Keys(r)[i] == r[i].0 && Keys(r)[j] == r[j].0;
      if k !in Keys(d) && j == |d| {
        assert Keys(d)[i] == Keys(r)[i];
      }
    }
  }

  /** Assigning the same key twice is one assignment of the last value. */
  lemma PutPut<K(!new), V>(d: Dict<K, V>, k: K, v1: V, v2: V)
    ensures Put(Put(d, k, v1), k, v2) == Put(d, k, v2)
  {
    var d1 := Put(d, k, v1);
    PutKeys(d, k, v1);
    match IndexIn(Keys(d), k)
    case Some(i) =>
    case None =>
      assert forall j :: 0 <= j < |d| ==> Keys(d)[j] == d[j].0;
      IndexAt(Keys(d1), |d|);
  }

  /** The dict `{p.0: p.1 for p in ps}`. */
  function FromPairs<K(==, !new), V>(ps: seq<(K, V)>): (d: Dict<K, V>)
  {
    if ps == [] then []
    else Put(FromPairs(ps[..|ps| - 1]), ps[|ps| - 1].0, ps[|ps| - 1].1)
  }

  /** A comprehension has no repeated key. */
  lemma {:induction false} FromPairsUnique<K(!new), V>(ps: seq<(K, V)>)
    ensures UniqueKeys(FromPairs(ps))
  {
    if ps != [] {
      FromPairsUnique(ps[..|ps| - 1]);
      PutUnique(FromPairs(ps[..|ps| - 1]), ps[|ps| - 1].0, ps[|ps| - 1].1);
    }
  }

  /** Pairs whose keys are all different make a dict of exactly those
      pairs, in order. */
  lemma {:induction false} FromPairsOfUniqueKeys<K(!new), V>(ps: seq<(K, V)>)
    requires UniqueKeys(ps)
    ensures FromPairs(ps) == ps
  {
    if ps != [] {
      var init := ps[..|ps| - 1];
      assert UniqueKeys(init);
      FromPairsOfUniqueKeys(init);
      assert forall j :: 0 <= j < |init| ==> Keys(init)[j] != ps[|ps| - 1].0;
      assert ps == init + [ps[|ps| - 1]];
    }
  }

  /** The last position of a pair with key `k`. */
  function LastIndex<K(==), V>(ps: seq<(K, V)>, k: K): (r: Option<nat>)
    ensures r.None? <==> forall j :: 0 <= j < |ps| ==> ps[j].0 != k
    ensures r.Some? ==> r.value < |ps| && ps[r.value].0 == k
    ensures r.Some? ==> forall j :: r.value < j < |ps| ==> ps[j].0 != k
  {
    if ps == [] then None
    else if ps[|ps| - 1].0 == k then Some(|ps| - 1)
    else LastIndex(ps[..|ps| - 1], k)
  }

  /** The value a comprehension keeps for a key is the one of its last pair;
      a key that no pair carries is absent. */
  lemma {:induction false} FromPairsGet<K(!new), V>(ps: seq<(K, V)>, k: K)
    ensures Get(FromPairs(ps), k) == match LastIndex(ps, k)
                                     case None => None
                                     case Some(i) => Some(ps[i].1)
  {
    if ps != [] {
      FromPairsGet(ps[..|ps| - 1], k);
      PutGet(FromPairs(ps[..|ps| - 1]), ps[|ps| - 1].0, ps[|ps| - 1].1, k);
    }
  }

  /** A pair whose key no later pair carries gives that key its value. */
  lemma LastPairWins<K(!new), V>(ps: seq<(K, V)>, i: nat)
    requires i < |ps| && forall j :: i < j < |ps| ==> ps[j].0 != ps[i].0
    ensures Get(FromPairs(ps), ps[i].0) == Some(ps[i].1)
  {
    FromPairsGet(ps, ps[i].0);
  }

  /** The keys of the comprehension are the keys of its pairs. */
  lemma FromPairsKeys<K(!new), V>(ps: seq<(K, V)>, k: K)
    ensures k in Keys(FromPairs(ps)) <==> k in Keys(ps)
  {
    FromPairsGet(ps, k);
    if k in Keys(ps) {
      var j :| 0 <= j < |ps| && Keys(ps)[j] == k;
      assert ps[j].0 == k;
    } else {
      forall j | 0 <= j < |ps| ensures ps[j].0 != k {
        assert Keys(ps)[j] == ps[j].0;
      }
    }
  }

  /** One more pair leaves the keys of the items already there in place. */
  lemma FromPairsStep<K(!new), V>(ps: seq<(K, V)>, a: nat)
    requires ps != [] && a < |FromPairs(ps[..|ps| - 1])|
    ensures a < |FromPairs(ps)|
    ensures FromPairs(ps)[a].0 == FromPairs(ps[..|ps| - 1])[a].0
  {
    var prev := FromPairs(ps[..|ps| - 1]);
    var d := FromPairs(ps);
    assert Keys(d)[..|prev|] == Keys(prev);
    assert Keys(d)[a] == d[a].0 && Keys(prev)[a] == prev[a].0;
  }

  /** The first occurrence of a key of the prefix is the same in `ps`. */
  lemma FirstOccurrenceInPrefix<K(!new), V>(ps: seq<(K, V)>, k: K)
    requires ps != [] && k in Keys(FromPairs(ps[..|ps| - 1]))
    ensures IndexIn(Keys(ps), k) == IndexIn(Keys(ps[..|ps| - 1]), k)
    ensures IndexIn(Keys(ps), k).Some? && IndexIn(Keys(ps), k).value < |ps| - 1
  {
    var pre := ps[..|ps| - 1];
    assert Keys(ps) == Keys(pre) + [ps[|ps| - 1].0];
    FromPairsKeys(pre, k);
    PrefixIndex(Keys(pre), [ps[|ps| - 1].0], k);
  }

  /** Every item of the comprehension is the last pair carrying its key. */
  lemma ItemIsLastPair<K(!new), V>(ps: seq<(K, V)>, a: nat)
    requires a < |FromPairs(ps)|
    ensures LastIndex(ps, FromPairs(ps)[a].0).Some?
    ensures FromPairs(ps)[a] == ps[LastIndex(ps, FromPairs(ps)[a].0).value]
  {
    var d := FromPairs(ps);
    FromPairsUnique(ps);
    GetAt(d, a);
    FromPairsGet(ps, d[a].0);
  }

  /** Iteration order is first-insertion order: an earlier item's key first
      occurs in `ps` before a later item's key does. */
  lemma {:induction false} FirstInsertionOrder<K(!new), V>(ps: seq<(K, V)>, a: nat, b: nat)
    requires a < b < |FromPairs(ps)|
    ensures IndexIn(Keys(ps), FromPairs(ps)[a].0).Some?
    ensures IndexIn(Keys(ps), FromPairs(ps)[b].0).Some?
    ensures IndexIn(Keys(ps), FromPairs(ps)[a].0).value
            < IndexIn(Keys(ps), FromPairs(ps)[b].0).value
  {
    var n := |ps| - 1;
    var pre := ps[..n];
    var prev := FromPairs(pre);
    var d := FromPairs(ps);
    assert Keys(d)[a] == d[a].0 && Keys(prev)[a] == prev[a].0;
    FromPairsStep(ps, a);
    FirstOccurrenceInPrefix(ps, d[a].0);
    if b < |prev| {
      assert Keys(prev)[b] == prev[b].0;
      FromPairsStep(ps, b);
      FirstOccurrenceInPrefix(ps, d[b].0);
      FirstInsertionOrder(pre, a, b);
    } else {
      // item b is the one the last pair appended: its key is new
      NewKeyFirstOccurrence(ps, b);
    }
  }

  /** An item the last pair appended has its first occurrence at that pair. */
  lemma NewKeyFirstOccurrence<K(!new), V>(ps: seq<(K, V)>, b: nat)
    requires ps != [] && |FromPairs(ps[..|ps| - 1])| <= b < |FromPairs(ps)|
    ensures IndexIn(Keys(ps), FromPairs(ps)[b].0) == Some(|ps| - 1)
  {
    var n := |ps| - 1;
    var prev := FromPairs(ps[..n]);
    var d := FromPairs(ps);
    var last := ps[n].0;
    assert d == Put(prev, last, ps[n].1);
    assert Keys(d) == Keys(prev) + [last];
    assert Keys(d)[b] == d[b].0;
    FromPairsKeys(ps[..n], last);
    FirstAtEnd(ps);
  }

  lemma FirstAtEnd<K, V>(ps: seq<(K, V)>)
    requires ps != [] && ps[|ps| - 1].0 !in Keys(ps[..|ps| - 1])
    ensures IndexIn(Keys(ps), ps[|ps| - 1].0) == Some(|ps| - 1)
  {
    var n := |ps| - 1;
    var ks := Keys(ps);
    assert ks == Keys(ps[..n]) + [ps[n].0];
    forall j | 0 <= j < n ensures ks[j] != ks[n] {
      assert ks[j] == Keys(ps[..n])[j];
    }
    IndexAt(ks, n);
  }
}
