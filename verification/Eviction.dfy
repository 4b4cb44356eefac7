/**
 * When `evictLowest` takes one given entry in every order in which the map may
 * yield its entries, although its comparison wraps (mempool/mempool.go).
 */
module Eviction {
  import opened Base
  import opened Mempools

  /** `m` compares below every other entry. */
  ghost predicate BelowAll(txs: map<Digest, Entry>, m: Digest) {
    m in txs && forall x :: x in txs && x != m ==> WrappedLess(txs[m], txs[x])
  }

  ghost predicate AlwaysEvicted(txs: map<Digest, Entry>, m: Digest) {
    forall order :: Visits(order, txs.Keys) ==> ScanLow(txs, order) == Some(m)
  }

  lemma {:induction false} BelowAllHolds(txs: map<Digest, Entry>, m: Digest, order: seq<Digest>, i: nat)
    requires BelowAll(txs, m) && i < |order| && order[i] == m
    requires forall j :: 0 <= j < |order| ==> order[j] in txs
    requires forall j, k :: 0 <= j < k < |order| ==> order[j] != order[k]
    ensures ScanLow(txs, order) == Some(m)
    decreases |order|
  {
    hide WrappedLess;
    var n := |order| - 1;
    var before, h := order[..n], order[n];
    if i < n {
      BelowAllHolds(txs, m, before, i);
      WrappedAsymmetric(txs[m], txs[h]);
    } else {
      ScanVisited(txs, before);
    }
  }

  /** What the scan holds it has visited. */
  lemma {:induction false} ScanVisited(txs: map<Digest, Entry>, order: seq<Digest>)
    requires forall j :: 0 <= j < |order| ==> order[j] in txs
    ensures ScanLow(txs, order).Some? ==> ScanLow(txs, order).value in order
    decreases |order|
  {
    hide WrappedLess;
    if order != [] {
      ScanVisited(txs, order[..|order| - 1]);
    }
  }

  /** An entry that was visited and not kept does not come back. */
  lemma {:induction false} PassedOver(txs: map<Digest, Entry>, m: Digest, start: seq<Digest>, rest: seq<Digest>)
    requires (forall j :: 0 <= j < |start| ==> start[j] in txs) && (forall j :: 0 <= j < |rest| ==> rest[j] in txs)
    requires ScanLow(txs, start) != Some(m) && m !in rest
    ensures ScanLow(txs, start + rest) != Some(m)
    decreases |rest|
  {
    hide WrappedLess;
    if rest == [] {
      assert start + rest == start;
    } else {
      var n := |rest| - 1;
      assert (start + rest)[..|start| + n] == start + rest[..n];
      PassedOver(txs, m, start, rest[..n]);
      assert (start + rest)[|start| + n] == rest[n] && rest[n] in rest;
    }
  }

  lemma {:induction false} Enumerate(keys: set<Digest>) returns (order: seq<Digest>)
    ensures Visits(order, keys)
    decreases |keys|
  {
    if keys == {} {
      order := [];
    } else {
      var k :| k in keys;
      order := Enumerate(keys - {k});
      VisitsMore(order, keys - {k}, k);
      assert keys - {k} + {k} == keys;
      order := order + [k];
    }
  }

  /** If some other entry does not compare above `m`, visiting that one first leaves `m` in the pool. */
  lemma {:induction false} VisitedFirst(txs: map<Digest, Entry>, m: Digest, x: Digest) returns (order: seq<Digest>)
    requires m in txs && x in txs && x != m && !WrappedLess(txs[m], txs[x])
    ensures Visits(order, txs.Keys) && ScanLow(txs, order) != Some(m)
  {
    hide WrappedLess, ScanLow;
    var others := txs.Keys - {x, m};
    var rest := Enumerate(others);
    order := [x, m] + rest;
    PairFirst(txs.Keys, x, m, rest);
    ScanNone(txs);
    assert [] + [x] == [x] && [x] + [m] == [x, m];
    ScanNext(txs, [], x);
    ScanNext(txs, [x], m);
    PassedOver(txs, m, [x, m], rest);
  }

  lemma {:induction false} PairFirst(keys: set<Digest>, x: Digest, m: Digest, rest: seq<Digest>)
    requires x in keys && m in keys && x != m && Visits(rest, keys - {x, m})
    ensures Visits([x, m] + rest, keys) && m !in rest
  {
    assert {x, m} <= keys && |{x, m}| == 2 && |keys - {x, m}| == |keys| - 2;
  }

  /** An entry is evicted in every order if and only if it compares below every other entry. */
  lemma {:induction false} AlwaysEvictedWhen(txs: map<Digest, Entry>, m: Digest)
    requires m in txs
    ensures AlwaysEvicted(txs, m) <==> BelowAll(txs, m)
  {
    hide WrappedLess, ScanLow;
    if BelowAll(txs, m) {
      forall order | Visits(order, txs.Keys)
        ensures ScanLow(txs, order) == Some(m)
      {
        var i := VisitsAll(order, txs.Keys, m);
        BelowAllHolds(txs, m, order, i);
      }
    } else {
      var x :| x in txs && x != m && !WrappedLess(txs[m], txs[x]);
      var order := VisitedFirst(txs, m, x);
      assert Visits(order, txs.Keys);
    }
  }

  /** `m` pays a strictly lower rate than every other entry. */
  ghost predicate PaysLeast(txs: map<Digest, Entry>, m: Digest) {
    m in txs && forall x :: x in txs && x != m ==> PaysLess(txs[m], txs[x])
  }

  /**
   * The entry that pays least is evicted in every order if and only if, against
   * every other entry, the parts of the two products beyond 64 bits are equal or
   * ordered as the rest.
   */
  lemma {:induction false} LeastIsEvictedWhen(txs: map<Digest, Entry>, m: Digest)
    requires PaysLeast(txs, m)
    ensures AlwaysEvicted(txs, m) <==>
              forall x :: x in txs && x != m ==> LossKeepsOrder(Cross(txs[m], txs[x]), Cross(txs[x], txs[m]))
  {
    hide WrappedLess, LossKeepsOrder, AlwaysEvicted, PaysLess, Cross;
    AlwaysEvictedWhen(txs, m);
    forall x | x in txs && x != m
      ensures WrappedLess(txs[m], txs[x]) <==> LossKeepsOrder(Cross(txs[m], txs[x]), Cross(txs[x], txs[m]))
    {
      WrapIsRightWhen(txs[m], txs[x]);
    }
  }
}
