/**
 * The memory pool (mempool/mempool.go): entries by hash and the index of the
 * outpoints they spend, kept inverse to each other under bounded eviction.
 */
module Mempools {
  import opened Base
  import opened Params
  import opened Tx
  import opened Blocks
  import opened Validation
  import opened Conservation
  import opened Storage

  datatype Entry = Entry(tx: Transaction, fee: u64, size: nat, added: int)

  datatype Pool = Pool(txs: map<Digest, Entry>, spends: map<Outpoint, Digest>, bytes: int)

  ghost function SizeSum(txs: map<Digest, Entry>): nat {
    if txs == map[] then 0
    else
      var h :| h in txs;
      txs[h].size + SizeSum(txs - {h})
  }

  lemma {:induction false} SizeRemove(txs: map<Digest, Entry>, h: Digest)
    requires h in txs
    ensures SizeSum(txs) == txs[h].size + SizeSum(txs - {h})
    decreases |txs|
  {
    var k :| k in txs && SizeSum(txs) == txs[k].size + SizeSum(txs - {k});
    if k != h {
      SizeRemove(txs - {k}, h);
      SizeRemove(txs - {h}, k);
      assert txs - {k} - {h} == txs - {h} - {k};
    }
  }

  /** Entries sit under their hash with their real size. */
  ghost predicate EntryOk(h: Digest, e: Entry) {
    && TxId(e.tx) == h && e.size == |SerializeTransaction(e.tx)| && |e.tx.inputs| >= 1
  }

  /** `spends` is exactly the index from spent outpoint to spender, and `bytes` the sum of sizes. */
  ghost predicate PoolOk(p: Pool) {
    && (forall h :: h in p.txs ==> EntryOk(h, p.txs[h]))
    && (forall h, o :: h in p.txs && o in AllOutpoints(p.txs[h].tx) ==> o in p.spends && p.spends[o] == h)
    && (forall o :: o in p.spends ==> p.spends[o] in p.txs && o in AllOutpoints(p.txs[p.spends[o]].tx))
    && p.bytes == SizeSum(p.txs)
  }

  /** No two entries of a consistent pool spend the same outpoint. */
  lemma {:induction false} EntriesAreDisjoint(p: Pool, h: Digest, k: Digest)
    requires PoolOk(p) && h in p.txs && k in p.txs && h != k
    ensures AllOutpoints(p.txs[h].tx) !! AllOutpoints(p.txs[k].tx)
  {
    hide AllOutpoints, EntryOk, SizeSum;
    forall o | o in AllOutpoints(p.txs[h].tx)
      ensures o !in AllOutpoints(p.txs[k].tx)
    {
      assert p.spends[o] == h;
    }
  }

  /** The pool without one entry. */
  function Drop(p: Pool, h: Digest): Pool
    requires h in p.txs
  {
    Pool(p.txs - {h}, p.spends - AllOutpoints(p.txs[h].tx), p.bytes - p.txs[h].size)
  }

  lemma {:induction false} DropOk(p: Pool, h: Digest)
    requires PoolOk(p) && h in p.txs
    ensures PoolOk(Drop(p, h))
  {
    hide AllOutpoints, EntryOk, SizeSum;
    SizeRemove(p.txs, h);
    var q := Drop(p, h);
    forall k, o | k in q.txs && o in AllOutpoints(q.txs[k].tx)
      ensures o in q.spends && q.spends[o] == k
    {
      assert p.spends[o] == k;
    }
    forall o | o in q.spends
      ensures q.spends[o] in q.txs && o in AllOutpoints(q.txs[q.spends[o]].tx)
    {
      assert o in AllOutpoints(p.txs[p.spends[o]].tx);
    }
  }

  /** The index after writing `h` under the first `n` outpoints that `t` spends. */
  function Claim(spends: map<Outpoint, Digest>, t: Transaction, h: Digest, n: nat): map<Outpoint, Digest>
    requires n <= |t.inputs|
  {
    if n == 0 then spends else Claim(spends, t, h, n - 1)[OutpointOf(t.inputs[n - 1]) := h]
  }

  lemma {:induction false} ClaimAt(spends: map<Outpoint, Digest>, t: Transaction, h: Digest, n: nat)
    requires n <= |t.inputs|
    ensures Claim(spends, t, h, n).Keys == spends.Keys + Outpoints(t, n)
    ensures forall o :: o in Claim(spends, t, h, n) ==>
              Claim(spends, t, h, n)[o] == if o in Outpoints(t, n) then h else spends[o]
  {
    if n > 0 {
      ClaimAt(spends, t, h, n - 1);
      assert Outpoints(t, n) == Outpoints(t, n - 1) + {OutpointOf(t.inputs[n - 1])};
    }
  }

  /** The pool with one more entry. */
  function Insert(p: Pool, h: Digest, e: Entry): Pool {
    Pool(p.txs[h := e], Claim(p.spends, e.tx, h, |e.tx.inputs|), p.bytes + e.size)
  }

  lemma {:induction false} InsertOk(p: Pool, h: Digest, e: Entry)
    requires PoolOk(p) && h !in p.txs && EntryOk(h, e) && AllOutpoints(e.tx) !! p.spends.Keys
    ensures PoolOk(Insert(p, h, e))
  {
    hide AllOutpoints, EntryOk, SizeSum, Claim;
    ClaimAll(p.spends, e.tx, h);
    var q := Insert(p, h, e);
    SizeRemove(q.txs, h);
    assert q.txs - {h} == p.txs;
  }

  lemma {:induction false} ClaimAll(spends: map<Outpoint, Digest>, t: Transaction, h: Digest)
    ensures var s := Claim(spends, t, h, |t.inputs|);
            && s.Keys == spends.Keys + AllOutpoints(t)
            && forall o :: o in s ==> s[o] == if o in AllOutpoints(t) then h else spends[o]
  {
    hide Claim, Outpoints;
    ClaimAt(spends, t, h, |t.inputs|);
  }

  lemma {:induction false} InsertEffect(p: Pool, h: Digest, e: Entry, maxBytes: int)
    requires h !in p.txs && (p.bytes + e.size <= maxBytes || p.txs == map[])
    ensures Bounded(Insert(p, h, e), maxBytes)
    ensures h in Insert(p, h, e).txs && Insert(p, h, e).txs[h] == e
    ensures Insert(p, h, e).txs - {h} == p.txs && Insert(p, h, e).bytes == p.bytes + e.size
  {
    hide Claim;
    assert p.txs == map[] ==> Insert(p, h, e).txs == map[h := e];
  }

  // ---------------------------------------------------------------- fee rates

  /** `a.Fee*uint64(b.Size) < b.Fee*uint64(a.Size)` in 64-bit arithmetic. */
  predicate WrappedLess(a: Entry, b: Entry) {
    a.fee * b.size % TWO64 < b.fee * a.size % TWO64
  }

  /** The fee rate of `a` is at most that of `b`. */
  predicate RateLe(a: Entry, b: Entry) {
    a.fee * b.size <= b.fee * a.size
  }

  /** No fee-times-size product of the pool reaches 2^64. */
  ghost predicate NoWrap(txs: map<Digest, Entry>) {
    forall h, k :: h in txs && k in txs ==> txs[h].fee * txs[k].size < TWO64
  }

  ghost predicate Lowest(txs: map<Digest, Entry>, low: Digest) {
    low in txs && forall h :: h in txs ==> RateLe(txs[low], txs[h])
  }

  lemma {:induction false} RateLeTransitive(a: Entry, b: Entry, c: Entry)
    requires RateLe(a, b) && RateLe(b, c) && b.size > 0
    ensures RateLe(a, c)
  {
    var x, y := a.fee * c.size, c.fee * a.size;
    assert x * b.size <= y * b.size by {
      ScaleLe(a.fee * b.size, b.fee * a.size, c.size);
      ScaleLe(b.fee * c.size, c.fee * b.size, a.size);
      assert x * b.size == a.fee * b.size * c.size;
      assert b.fee * a.size * c.size == b.fee * c.size * a.size;
      assert y * b.size == c.fee * b.size * a.size;
    }
    CancelLe(x, y, b.size);
  }

  lemma {:induction false} ScaleLe(x: int, y: int, k: nat)
    requires x <= y
    ensures x * k <= y * k
  {
  }

  lemma {:induction false} ScaleLess(x: int, y: int, k: nat)
    requires x < y && k > 0
    ensures x * k < y * k
  {
    ScaleLe(x + 1, y, k);
    assert (x + 1) * k == x * k + k;
  }

  lemma {:induction false} CancelLe(x: int, y: int, k: nat)
    requires x * k <= y * k && k > 0
    ensures x <= y
  {
    if y < x {
      ScaleLess(y, x, k);
    }
  }

  // ---------------------------------------------------------------- the scan of evictLowest

  /** The keys in some order, each once. */
  ghost predicate Visits(order: seq<Digest>, keys: set<Digest>) {
    && |order| == |keys|
    && (forall i :: 0 <= i < |order| ==> order[i] in keys)
    && (forall i, j :: 0 <= i < j < |order| ==> order[i] != order[j])
  }

  /** What the scan of `evictLowest` has settled on after visiting `order`. */
  ghost function ScanLow(txs: map<Digest, Entry>, order: seq<Digest>): (r: Option<Digest>)
    requires forall i :: 0 <= i < |order| ==> order[i] in txs
    ensures r.Some? ==> r.value in txs
    decreases |order|
  {
    if order == [] then None
    else
      var low, h := ScanLow(txs, order[..|order| - 1]), order[|order| - 1];
      if low.None? || WrappedLess(txs[h], txs[low.value]) then Some(h) else low
  }

  lemma {:induction false} VisitsMore(order: seq<Digest>, keys: set<Digest>, h: Digest)
    requires Visits(order, keys) && h !in keys
    ensures Visits(order + [h], keys + {h})
  {
  }

  lemma {:induction false} ScanNext(txs: map<Digest, Entry>, order: seq<Digest>, h: Digest)
    requires (forall i :: 0 <= i < |order| ==> order[i] in txs) && h in txs
    ensures var low := ScanLow(txs, order);
            ScanLow(txs, order + [h]) == if low.None? || WrappedLess(txs[h], txs[low.value]) then Some(h) else low
  {
    hide WrappedLess;
    assert (order + [h])[..|order|] == order;
  }

  /**
   * A one-input, one-output payment of 219 bytes: a signature, a compressed key and a
   * locking script of the usual lengths.
   */
  function Payment(prev: Digest, signature: seq<byte>, key: seq<byte>, amount: u64, script: seq<byte>): Transaction {
    Transaction(1, [Input(prev, 0, signature, key)], [Output(amount, script)], 0)
  }

  lemma {:induction false} PaymentSize(prev: Digest, signature: seq<byte>, key: seq<byte>, amount: u64,
                                       script: seq<byte>)
    requires |signature| == 64 && |key| == 33 && |script| == 26
    ensures |SerializeTransaction(Payment(prev, signature, key, amount, script))| == 219
  {
    hide LE;
    var t := Payment(prev, signature, key, amount, script);
    assert WireInputs(t.inputs) == WireInput(t.inputs[0]) + WireInputs([]) by { assert t.inputs[1..] == []; }
    assert WireOutputs(t.outputs) == WireOutput(t.outputs[0]) + WireOutputs([]) by { assert t.outputs[1..] == []; }
  }

  /** The fees of the two payments; together they are below what can ever be minted. */
  const HIGH_FEE: u64 := 100_000_000_000_000_000
  const LOW_FEE: u64 := 20_000_000_000_000_000

  /** A pool of two entries that spend different coins. */
  function PoolOfTwo(a: Entry, b: Entry): Pool {
    Insert(Insert(Pool(map[], map[], 0), TxId(a.tx), a), TxId(b.tx), b)
  }

  lemma {:induction false} PoolOfTwoOk(a: Entry, b: Entry)
    requires EntryOk(TxId(a.tx), a) && EntryOk(TxId(b.tx), b) && TxId(a.tx) != TxId(b.tx)
    requires AllOutpoints(a.tx) !! AllOutpoints(b.tx)
    ensures PoolOk(PoolOfTwo(a, b))
    ensures PoolOfTwo(a, b).txs == map[TxId(a.tx) := a, TxId(b.tx) := b]
  {
    hide TxId, EntryOk, AllOutpoints, Claim;
    var none := Pool(map[], map[], 0);
    assert PoolOk(none);
    InsertOk(none, TxId(a.tx), a);
    ClaimAll(none.spends, a.tx, TxId(a.tx));
    InsertOk(Insert(none, TxId(a.tx), a), TxId(b.tx), b);
  }

  lemma {:induction false} EqualSizes(a: Entry, b: Entry)
    requires a.size == b.size == 219 && a.fee == HIGH_FEE && b.fee == LOW_FEE
    ensures WrappedLess(a, b) && !WrappedLess(b, a) && !RateLe(a, b) && RateLe(b, a)
  {
    assert HIGH_FEE * 219 == 1 * TWO64 + 3_453_255_926_290_448_384;
    assert HIGH_FEE * 219 % TWO64 == 3_453_255_926_290_448_384;
    assert LOW_FEE * 219 % TWO64 == 4_380_000_000_000_000_000;
  }

  /**
   * The two entries form a consistent pool, their fees together are below all that
   * can be minted, `a` pays the higher rate, and the scan settles on `a` in
   * whatever order it visits them.
   */
  ghost predicate EvictsBetterPayer(a: Entry, b: Entry) {
    var p, h := PoolOfTwo(a, b), TxId(a.tx);
    && PoolOk(p) && p.txs == map[h := a, TxId(b.tx) := b]
    && a.fee + b.fee < 2 * INITIAL_REWARD * HALVING_INTERVAL
    && RateLe(b, a) && !RateLe(a, b) && !Lowest(p.txs, h)
    && forall order :: Visits(order, p.txs.Keys) ==> ScanLow(p.txs, order) == Some(h)
  }

  lemma {:induction false} EqualSizesMislead(a: Entry, b: Entry)
    requires EntryOk(TxId(a.tx), a) && EntryOk(TxId(b.tx), b) && TxId(a.tx) != TxId(b.tx)
    requires AllOutpoints(a.tx) !! AllOutpoints(b.tx)
    requires a.size == b.size == 219 && a.fee == HIGH_FEE && b.fee == LOW_FEE
    ensures EvictsBetterPayer(a, b)
  {
    hide TxId, EntryOk, AllOutpoints, PoolOk, WrappedLess, RateLe, PoolOfTwo, ScanLow;
    EqualSizes(a, b);
    PoolOfTwoOk(a, b);
    var p, h, k := PoolOfTwo(a, b), TxId(a.tx), TxId(b.tx);
    assert p.txs.Keys == {h, k};
    forall order | Visits(order, p.txs.Keys)
      ensures ScanLow(p.txs, order) == Some(h)
    {
      ScanOfTwo(p.txs, h, k, order);
    }
  }

  /**
   * With wrap-around eviction takes the better payer: of two payments that differ
   * only in the coin they spend and in the fee, the one that pays five times as
   * much is evicted.
   */
  lemma {:induction false} WrapMisleads(prev: Digest, prev': Digest, signature: seq<byte>, key: seq<byte>, amount: u64,
                                        script: seq<byte>)
    requires |signature| == 64 && |key| == 33 && |script| == 26 && prev != prev'
    requires TxId(Payment(prev, signature, key, amount, script)) != TxId(Payment(prev', signature, key, amount, script))
    ensures EvictsBetterPayer(Entry(Payment(prev, signature, key, amount, script), HIGH_FEE, 219, 0),
                              Entry(Payment(prev', signature, key, amount, script), LOW_FEE, 219, 0))
  {
    hide SerializeTransaction, TxId, EvictsBetterPayer;
    PaymentSize(prev, signature, key, amount, script);
    PaymentSize(prev', signature, key, amount, script);
    var t, u := Payment(prev, signature, key, amount, script), Payment(prev', signature, key, amount, script);
    assert AllOutpoints(t) !! AllOutpoints(u);
    EqualSizesMislead(Entry(t, HIGH_FEE, 219, 0), Entry(u, LOW_FEE, 219, 0));
  }

  lemma {:induction false} ScanOfTwo(txs: map<Digest, Entry>, h: Digest, k: Digest, order: seq<Digest>)
    requires h != k && txs.Keys == {h, k} && WrappedLess(txs[h], txs[k]) && !WrappedLess(txs[k], txs[h])
    requires Visits(order, txs.Keys)
    ensures (forall i :: 0 <= i < |order| ==> order[i] in txs) && ScanLow(txs, order) == Some(h)
  {
    hide WrappedLess, Visits, ScanLow;
    TwoOrders(order, h, k);
    assert h in txs && k in txs;
    ScanNone(txs);
    assert [] + [h] == [h] && [] + [k] == [k] && [h] + [k] == [h, k] && [k] + [h] == [k, h];
    ScanNext(txs, [], h);
    ScanNext(txs, [h], k);
    ScanNext(txs, [], k);
    ScanNext(txs, [k], h);
  }

  lemma {:induction false} ScanNone(txs: map<Digest, Entry>)
    ensures ScanLow(txs, []) == None
  {
  }

  lemma {:induction false} TwoOrders(order: seq<Digest>, h: Digest, k: Digest)
    requires h != k && Visits(order, {h, k})
    ensures order == [h, k] || order == [k, h]
  {
    assert {h, k} == {h} + {k} && |{h} + {k}| == 2;
    assert |order| == 2 && order[0] != order[1];
    if order[0] == h {
      assert order[1] == k;
    } else {
      assert order[1] == h;
    }
  }

  /** The product that is compared for `a` against `b`. */
  function Cross(a: Entry, b: Entry): nat {
    a.fee * b.size
  }

  /** The fee rate of `a` is lower than that of `b`. */
  predicate PaysLess(a: Entry, b: Entry) {
    Cross(a, b) < Cross(b, a)
  }

  /** What two products lose to 64 bits is equal, or ordered as what they keep. */
  predicate LossKeepsOrder(p: nat, q: nat) {
    p / TWO64 == q / TWO64 || (p / TWO64 < q / TWO64 <==> p % TWO64 < q % TWO64)
  }

  /** The comparison of two entries is right exactly if what the products lose is equal or ordered as what they keep. */
  lemma {:induction false} WrapIsRightWhen(a: Entry, b: Entry)
    ensures (WrappedLess(a, b) <==> PaysLess(a, b)) <==> LossKeepsOrder(Cross(a, b), Cross(b, a))
  {
    hide WrappedLess;
    var p, q := Cross(a, b), Cross(b, a);
    Split64(p);
    Split64(q);
    WrappedIs(a, b);
  }

  lemma {:induction false} WrappedIs(a: Entry, b: Entry)
    ensures WrappedLess(a, b) <==> a.fee * b.size % TWO64 < b.fee * a.size % TWO64
  {
  }

  lemma {:induction false} Split64(p: nat)
    ensures p == TWO64 * (p / TWO64) + p % TWO64 && 0 <= p % TWO64 < TWO64
  {
  }

  // ---------------------------------------------------------------- sorting by fee rate

  ghost predicate SortedByRate(s: seq<Entry>) {
    forall i, j :: 0 <= i < j < |s| ==> RateLe(s[j], s[i])
  }

  // ---------------------------------------------------------------- the pool object

  class Mempool {
    const store: DB
    const verifier: Verifier
    const maxBytes: int
    var txs: map<Digest, Entry>
    var spends: map<Outpoint, Digest>
    var bytes: int

    function View(): Pool
      reads this
    {
      Pool(txs, spends, bytes)
    }

    constructor (maxBytes: int, store: DB, verifier: Verifier)
      ensures View() == Pool(map[], map[], 0) && PoolOk(View())
      ensures this.maxBytes == maxBytes && this.store == store && this.verifier == verifier
    {
      this.maxBytes, this.store, this.verifier := maxBytes, store, verifier;
      txs, spends, bytes := map[], map[], 0;
    }

    /** The removal shared by `Remove`, `RemoveMinedBlock` and `evictLowest`. */
    method Delete(h: Digest)
      requires h in txs
      modifies this
      ensures View() == Drop(old(View()), h)
    {
      var e := txs[h];
      txs := txs - {h};
      bytes := bytes - e.size;
      ghost var before := spends;
      for i := 0 to |e.tx.inputs|
        invariant spends == before - Outpoints(e.tx, i)
        invariant txs == old(txs) - {h} && bytes == old(bytes) - e.size
      {
        var key := OutpointOf(e.tx.inputs[i]);
        assert Outpoints(e.tx, i + 1) == Outpoints(e.tx, i) + {key};
        assert before - Outpoints(e.tx, i + 1) == before - Outpoints(e.tx, i) - {key};
        spends := spends - {key};
      }
    }

    /** `Remove`. */
    method Remove(hash: Digest)
      requires PoolOk(View())
      modifies this
      ensures PoolOk(View())
      ensures View() == if hash in old(txs) then Drop(old(View()), hash) else old(View())
      ensures Bounded(old(View()), maxBytes) ==> Bounded(View(), maxBytes)
    {
      if hash !in txs {
        return;
      }
      if Bounded(View(), maxBytes) {
        DropBounded(View(), hash, maxBytes);
      }
      DropOk(View(), hash);
      Delete(hash);
    }

    /** The scan of `evictLowest`, in whatever order the map yields its entries. */
    method FindLowest() returns (low: Option<Digest>, ghost order: seq<Digest>)
      requires PoolOk(View())
      ensures Visits(order, txs.Keys) && low == ScanLow(txs, order)
      ensures low.None? <==> txs == map[]
      ensures low.Some? ==> low.value in txs
      ensures low.Some? && MinimaShow(txs) ==> Lowest(txs, low.value)
    {
      hide PoolOk, Scanned, Visits, ScanLow, WrappedLess, MinimaShow, Lowest;
      PoolSizes(View());
      low, order := None, [];
      var todo := txs.Keys;
      ScannedNone(txs);
      while todo != {}
        invariant todo <= txs.Keys && Scanned(txs, todo, order, low)
        invariant low.Some? ==> low.value in txs
        decreases |todo|
      {
        var h :| h in todo;
        ScannedStep(txs, todo, order, low, h);
        if low.None? || WrappedLess(txs[h], txs[low.value]) {
          low := Some(h);
        }
        order := order + [h];
        todo := todo - {h};
      }
      ScannedAll(txs, order, low);
    }

    /** `evictLowest`: removes an entry of minimum fee rate if the minima compare below all others. */
    method EvictLowest() returns (ok: bool, ghost low: Digest)
      requires PoolOk(View())
      modifies this
      ensures PoolOk(View())
      ensures ok <==> old(txs) != map[]
      ensures !ok ==> View() == old(View())
      ensures ok ==> low in old(txs) && View() == Drop(old(View()), low)
      ensures ok ==> exists order :: Visits(order, old(txs).Keys) && ScanLow(old(txs), order) == Some(low)
      ensures ok && MinimaShow(old(txs)) ==> Lowest(old(txs), low)
    {
      hide PoolOk, MinimaShow, Lowest, ScanLow;
      low := ZERO_DIGEST;
      var found, order := FindLowest();
      if found.None? {
        return false, low;
      }
      low := found.value;
      DropOk(View(), found.value);
      Delete(found.value);
      ok := true;
    }

    /**
     * Makes room for `size` more bytes by dropping entries from the lowest fee rate up,
     * and stops as soon as there is room.
     */
    method MakeRoom(size: nat) returns (ghost evicted: set<Digest>)
      requires PoolOk(View())
      modifies this
      ensures PoolOk(View())
      ensures evicted <= old(txs).Keys && txs == old(txs) - evicted
      ensures spends.Keys <= old(spends).Keys
      ensures bytes + size <= maxBytes || txs == map[]
      ensures evicted != {} ==> exists d :: d in evicted && d in old(txs) && bytes + old(txs)[d].size + size > maxBytes
      ensures old(bytes) + size <= maxBytes ==> evicted == {}
      ensures NoWrap(old(txs)) ==> EvictsLow(old(txs), evicted)
    {
      hide PoolOk, NoWrap, EvictsLow, Lowest, MinimaShow, Drop, Evicted;
      evicted := {};
      ghost var last := ZERO_DIGEST;
      EvictedNone(txs);
      while bytes + size > maxBytes
        invariant PoolOk(View())
        invariant Evicted(old(txs), evicted, txs) && spends.Keys <= old(spends).Keys
        invariant evicted == {} ==> bytes == old(bytes)
        invariant evicted != {} ==> old(bytes) + size > maxBytes
        invariant evicted != {} ==> last in evicted && last in old(txs) && bytes + old(txs)[last].size + size > maxBytes
        decreases |txs|
      {
        ghost var before := View();
        PoolSizes(before);
        var ok, low := EvictLowest();
        if !ok {
          break;
        }
        EvictedStep(old(txs), evicted, before, low);
        evicted, last := evicted + {low}, low;
      }
      EvictedIs(old(txs), evicted, txs);
    }

    /** The last loop of `Add`: the new transaction is written under each outpoint it spends. */
    method Register(t: Transaction, h: Digest, e: Entry)
      requires e.tx == t
      modifies this
      ensures View() == Insert(old(View()), h, e)
    {
      txs := txs[h := e];
      bytes := bytes + e.size;
      for i := 0 to |t.inputs|
        invariant txs == old(txs)[h := e] && bytes == old(bytes) + e.size
        invariant spends == Claim(old(spends), t, h, i)
      {
        spends := spends[OutpointOf(t.inputs[i]) := h];
      }
    }

    /**
     * `Add`: admission, eviction and indexing. The pool stays within its limit
     * unless the new transaction alone exceeds it, and what is evicted pays no
     * higher a rate than what is kept.
     */
    method Add(t: Transaction, now: int) returns (r: Result<(), TxError>, ghost evicted: set<Digest>)
      requires PoolOk(View())
      requires forall h :: h in txs && TxId(t) == h ==> txs[h].tx == t
      modifies this
      ensures PoolOk(View())
      ensures r.Ok? <==> Accepts(t, store.utxo, verifier, old(spends).Keys, U64_MAX)
      ensures r.Err? ==> View() == old(View()) && Rejects(t, store.utxo, verifier, old(spends).Keys, U64_MAX, r.error)
      ensures r.Ok? ==> Bounded(View(), maxBytes)
      ensures r.Ok? ==> evicted <= old(txs).Keys && TxId(t) !in old(txs) && TxId(t) in txs
                        && txs - {TxId(t)} == old(txs) - evicted
                        && txs[TxId(t)].tx == t && txs[TxId(t)].fee == Spends(t, store.utxo) - Pays(t)
      ensures r.Ok? && old(bytes) + |SerializeTransaction(t)| <= maxBytes ==> evicted == {}
      ensures r.Ok? && evicted != {} ==>
                exists d :: d in evicted && d in old(txs) && bytes + old(txs)[d].size > maxBytes
      ensures r.Ok? && NoWrap(old(txs)) ==>
                EvictsLow(old(txs), evicted)
    {
      hide Accepts, Rejects, PoolOk, Spends, Pays, SerializeTransaction, TxId, NoWrap, EvictsLow, Insert, Bounded,
           AllOutpoints;
      evicted := {};
      var fee, _ := ValidateTransactionAt(t, store.utxo, verifier, spends.Keys, U64_MAX);
      if fee.Err? {
        return Err(fee.error), evicted;
      }
      var h := TxId(t);
      var size := |SerializeTransaction(t)|;
      AcceptedInputs(t, store.utxo, verifier, spends.Keys, U64_MAX);
      NotInPool(View(), t);
      evicted := MakeRoom(size);
      var e := Entry(t, fee.value, size, now);
      InsertOk(View(), h, e);
      InsertEffect(View(), h, e, maxBytes);
      Register(t, h, e);
      r := Ok(());
    }

    /** `RemoveMinedBlock` drops exactly the pool's transactions that the block includes. */
    method RemoveMinedBlock(b: Block)
      requires PoolOk(View())
      modifies this
      ensures PoolOk(View())
      ensures View() == WithoutMined(old(View()), b.txs, |b.txs|)
      ensures Bounded(old(View()), maxBytes) ==> Bounded(View(), maxBytes)
    {
      hide PoolOk, Bounded, AllOutpoints, IsCoinbase, TxId;
      WithoutMinedKeeps(View(), b.txs, |b.txs|, maxBytes);
      for i := 0 to |b.txs|
        invariant PoolOk(View())
        invariant View() == WithoutMined(old(View()), b.txs, i)
      {
        if !IsCoinbase(b.txs[i]) {
          Remove(TxId(b.txs[i]));
        }
      }
    }

    /** `EntriesByFeeRate`: all entries, and sorted by falling fee rate if no product wraps. */
    method EntriesByFeeRate() returns (out: seq<Entry>, ghost order: seq<Digest>)
      requires PoolOk(View())
      ensures Lists(out, order, txs, txs.Keys)
      ensures NoWrap(txs) ==> SortedByRate(out)
    {
      hide PoolOk, NoWrap, SortedByRate, Lists, Fits;
      out, order := [], [];
      var todo := txs.Keys;
      PoolSizes(View());
      SortedNone();
      ListsNone(txs);
      assert txs.Keys - todo == {};
      while todo != {}
        invariant todo <= txs.Keys && Lists(out, order, txs, txs.Keys - todo)
        invariant NoWrap(txs) ==> SortedByRate(out)
        decreases |todo|
      {
        var h :| h in todo;
        var k := Position(out, txs[h], txs, order, txs.Keys - todo, h);
        if NoWrap(txs) {
          InsertSorted(out, order, txs, txs.Keys - todo, h, k);
        }
        ListsInsert(out, order, txs, txs.Keys - todo, h, k);
        out := out[..k] + [txs[h]] + out[k..];
        order := order[..k] + [h] + order[k..];
        assert txs.Keys - (todo - {h}) == txs.Keys - todo + {h};
        todo := todo - {h};
      }
      assert txs.Keys - {} == txs.Keys;
    }

    /** `Snapshot`: every transaction of the pool once, by falling fee rate if no product wraps. */
    method Snapshot() returns (out: seq<Transaction>)
      requires PoolOk(View())
      ensures |out| == |txs| && forall i :: 0 <= i < |out| ==> TxId(out[i]) in txs && txs[TxId(out[i])].tx == out[i]
      ensures forall i, j :: 0 <= i < j < |out| ==> TxId(out[i]) != TxId(out[j])
      ensures NoWrap(txs) ==> forall i, j :: 0 <= i < j < |out| ==> RateLe(txs[TxId(out[j])], txs[TxId(out[i])])
    {
      hide PoolOk, Lists, SortedByRate, NoWrap, TxId, RateLe;
      ghost var order;
      var found;
      found, order := EntriesByFeeRate();
      out := [];
      for i := 0 to |found|
        invariant |out| == i
        invariant forall j :: 0 <= j < i ==> out[j] == found[j].tx
      {
        out := out + [found[i].tx];
      }
      ListedIds(View(), found, order);
      if NoWrap(txs) {
        SortedPairs(found);
      }
    }
  }

  /** Entries are listed under the identifier of their transaction. */
  lemma {:induction false} ListedIds(p: Pool, out: seq<Entry>, order: seq<Digest>)
    requires PoolOk(p) && Lists(out, order, p.txs, p.txs.Keys)
    ensures |out| == |p.txs|
    ensures forall i :: 0 <= i < |out| ==> TxId(out[i].tx) in p.txs && p.txs[TxId(out[i].tx)] == out[i]
    ensures forall i, j :: 0 <= i < j < |out| ==> TxId(out[i].tx) != TxId(out[j].tx)
  {
    hide TxId, SizeSum, AllOutpoints;
    assert |p.txs.Keys| == |p.txs|;
    forall i | 0 <= i < |out|
      ensures TxId(out[i].tx) == order[i]
    {
      assert EntryOk(order[i], p.txs[order[i]]);
    }
  }

  lemma {:induction false} SortedPairs(out: seq<Entry>)
    requires SortedByRate(out)
    ensures forall i, j :: 0 <= i < j < |out| ==> RateLe(out[j], out[i])
  {
  }

  /** Nothing evicted pays a higher rate than anything kept. */
  ghost predicate EvictsLow(txs: map<Digest, Entry>, evicted: set<Digest>) {
    forall e, k :: e in evicted && e in txs && k in txs && k !in evicted ==> RateLe(txs[e], txs[k])
  }

  /** `rest` is what is left of `txs`, and what is gone paid no higher a rate, if no product wraps. */
  ghost predicate Evicted(txs: map<Digest, Entry>, gone: set<Digest>, rest: map<Digest, Entry>) {
    gone <= txs.Keys && rest == txs - gone && (NoWrap(txs) ==> EvictsLow(txs, gone))
  }

  lemma {:induction false} EvictedNone(txs: map<Digest, Entry>)
    ensures Evicted(txs, {}, txs)
  {
    hide NoWrap;
    EvictsNone(txs);
  }

  lemma {:induction false} EvictedIs(txs: map<Digest, Entry>, gone: set<Digest>, rest: map<Digest, Entry>)
    requires Evicted(txs, gone, rest)
    ensures gone <= txs.Keys && rest == txs - gone && (NoWrap(txs) ==> EvictsLow(txs, gone))
  {
  }

  /** Dropping an entry of minimum rate. */
  lemma {:induction false} EvictedStep(txs: map<Digest, Entry>, gone: set<Digest>, p: Pool, low: Digest)
    requires Evicted(txs, gone, p.txs) && low in p.txs && (MinimaShow(p.txs) ==> Lowest(p.txs, low))
    requires forall k :: k in p.txs ==> p.txs[k].size > 0
    ensures Evicted(txs, gone + {low}, Drop(p, low).txs)
    ensures low in txs && Drop(p, low).bytes + txs[low].size == p.bytes
    ensures |Drop(p, low).txs| < |p.txs| && Drop(p, low).spends.Keys <= p.spends.Keys
  {
    hide NoWrap, EvictsLow, Lowest, AllOutpoints, MinimaShow;
    DropSmaller(p.txs, low);
    if NoWrap(txs) {
      NoWrapRest(txs, gone);
      NoWrapShows(p.txs);
      EvictsMore(txs, gone, low);
    }
    assert txs - (gone + {low}) == txs - gone - {low};
  }

  lemma {:induction false} EvictsNone(txs: map<Digest, Entry>)
    ensures EvictsLow(txs, {})
  {
  }

  lemma {:induction false} EvictsMore(txs: map<Digest, Entry>, evicted: set<Digest>, low: Digest)
    requires NoWrap(txs) && EvictsLow(txs, evicted) && low in txs && low !in evicted
    requires NoWrap(txs - evicted) ==> Lowest(txs - evicted, low)
    ensures EvictsLow(txs, evicted + {low})
  {
    hide RateLe, NoWrap;
    NoWrapRest(txs, evicted);
    var rest := txs - evicted;
    forall e, k | e in evicted + {low} && e in txs && k in txs && k !in evicted + {low}
      ensures RateLe(txs[e], txs[k])
    {
      if e !in evicted {
        assert RateLe(rest[low], rest[k]);
      }
    }
  }

  lemma {:induction false} NoWrapRest(txs: map<Digest, Entry>, gone: set<Digest>)
    requires NoWrap(txs)
    ensures NoWrap(txs - gone)
  {
    var rest := txs - gone;
    forall h, k | h in rest && k in rest
      ensures rest[h].fee * rest[k].size < TWO64
    {
      assert rest[h] == txs[h] && rest[k] == txs[k];
    }
  }

  lemma {:induction false} DropSmaller(txs: map<Digest, Entry>, h: Digest)
    requires h in txs
    ensures |txs - {h}| < |txs|
  {
    assert txs.Keys == (txs - {h}).Keys + {h};
  }

  /** The order in which entries are listed: each of `done` once. */
  ghost predicate Lists(out: seq<Entry>, order: seq<Digest>, txs: map<Digest, Entry>, done: set<Digest>) {
    && |out| == |order| == |done|
    && (forall i :: 0 <= i < |order| ==> order[i] in done && order[i] in txs && out[i] == txs[order[i]])
    && (forall i, j :: 0 <= i < j < |order| ==> order[i] != order[j])
  }

  lemma {:induction false} ListsNone(txs: map<Digest, Entry>)
    ensures Lists([], [], txs, {})
  {
  }

  lemma {:induction false} ListsInsert(out: seq<Entry>, order: seq<Digest>, txs: map<Digest, Entry>, done: set<Digest>,
                                       h: Digest, k: nat)
    requires Lists(out, order, txs, done) && h in txs && h !in done && k <= |out|
    ensures Lists(out[..k] + [txs[h]] + out[k..], order[..k] + [h] + order[k..], txs, done + {h})
  {
  }

  lemma {:induction false} PoolSizes(p: Pool)
    requires PoolOk(p)
    ensures forall h :: h in p.txs ==> p.txs[h].size > 0
  {
    forall h | h in p.txs
      ensures p.txs[h].size > 0
    {
      SerializedSize(p.txs[h].tx);
    }
  }

  /** Within the limit, or a single entry that exceeds it on its own. */
  predicate Bounded(p: Pool, maxBytes: int) {
    p.bytes <= maxBytes || |p.txs| <= 1
  }

  lemma {:induction false} DropBounded(p: Pool, h: Digest, maxBytes: int)
    requires PoolOk(p) && h in p.txs && Bounded(p, maxBytes)
    ensures Bounded(Drop(p, h), maxBytes)
  {
    assert p.txs.Keys == Drop(p, h).txs.Keys + {h};
  }

  /** The pool after dropping the first `n` transactions of a block, as far as they are in it. */
  function WithoutMined(p: Pool, txs: seq<Transaction>, n: nat): Pool
    requires n <= |txs|
  {
    if n == 0 then p
    else
      var q := WithoutMined(p, txs, n - 1);
      if !IsCoinbase(txs[n - 1]) && TxId(txs[n - 1]) in q.txs then Drop(q, TxId(txs[n - 1])) else q
  }

  /** Mined transactions are gone, all others stay, and the pool stays consistent and bounded. */
  lemma {:induction false} WithoutMinedKeeps(p: Pool, txs: seq<Transaction>, n: nat, maxBytes: int)
    requires PoolOk(p) && n <= |txs|
    ensures PoolOk(WithoutMined(p, txs, n))
    ensures Bounded(p, maxBytes) ==> Bounded(WithoutMined(p, txs, n), maxBytes)
    ensures WithoutMined(p, txs, n).txs ==
              p.txs - set i | 0 <= i < n && !IsCoinbase(txs[i]) :: TxId(txs[i])
  {
    hide PoolOk, IsCoinbase, TxId, Bounded;
    if n > 0 {
      WithoutMinedKeeps(p, txs, n - 1, maxBytes);
      var q := WithoutMined(p, txs, n - 1);
      var h := TxId(txs[n - 1]);
      if !IsCoinbase(txs[n - 1]) && h in q.txs {
        DropOk(q, h);
        if Bounded(p, maxBytes) {
          DropBounded(q, h, maxBytes);
        }
      }
    }
  }

  /** An accepted transaction is not in the pool, because its inputs would be taken. */
  lemma {:induction false} NotInPool(p: Pool, t: Transaction)
    requires PoolOk(p) && |t.inputs| >= 1 && AllOutpoints(t) !! p.spends.Keys
    requires forall h :: h in p.txs && TxId(t) == h ==> p.txs[h].tx == t
    ensures TxId(t) !in p.txs
  {
    hide TxId, SizeSum;
    assert OutpointOf(t.inputs[0]) in AllOutpoints(t);
  }

  /** `e` belongs at position `k` of the list. */
  ghost predicate Fits(out: seq<Entry>, e: Entry, k: nat) {
    && k <= |out|
    && (forall i :: 0 <= i < k ==> RateLe(e, out[i]))
    && (k < |out| ==> RateLe(out[k], e))
  }

  /** Where a new entry belongs: before the first entry of lower rate. */
  method Position(out: seq<Entry>, e: Entry, ghost txs: map<Digest, Entry>, ghost order: seq<Digest>,
                  ghost done: set<Digest>, ghost h: Digest)
    returns (k: nat)
    requires Lists(out, order, txs, done) && h in txs && txs[h] == e
    ensures k <= |out| == |order|
    ensures NoWrap(txs) ==> Fits(out, e, k)
  {
    hide NoWrap, RateLe, WrappedLess;
    k := 0;
    while k < |out| && !WrappedLess(out[k], e)
      invariant k <= |out|
      invariant NoWrap(txs) ==> forall i :: 0 <= i < k ==> RateLe(e, out[i])
    {
      if NoWrap(txs) {
        SmallProducts(txs, order[k], h);
      }
      k := k + 1;
    }
    if NoWrap(txs) && k < |out| {
      SmallProducts(txs, order[k], h);
    }
  }

  lemma {:induction false} SortedNone()
    ensures SortedByRate([])
  {
  }

  lemma {:induction false} InsertSorted(out: seq<Entry>, order: seq<Digest>, txs: map<Digest, Entry>, done: set<Digest>,
                                        h: Digest, k: nat)
    requires Lists(out, order, txs, done) && h in txs && SortedByRate(out) && Fits(out, txs[h], k)
    requires forall g :: g in txs ==> txs[g].size > 0
    ensures SortedByRate(out[..k] + [txs[h]] + out[k..])
  {
    hide RateLe;
    forall i | k <= i < |out|
      ensures RateLe(out[i], txs[h])
    {
      if i > k {
        RateLeTransitive(out[i], out[k], txs[h]);
      }
    }
  }

  // ---------------------------------------------------------------- what the scan settles on

  /** Every entry of minimum rate compares below every entry that is not. */
  ghost predicate MinimaShow(txs: map<Digest, Entry>) {
    forall s, x :: Lowest(txs, s) && x in txs && !Lowest(txs, x) ==> WrappedLess(txs[s], txs[x])
  }

  lemma {:induction false} WrappedAsymmetric(a: Entry, b: Entry)
    ensures !(WrappedLess(a, b) && WrappedLess(b, a))
  {
  }

  lemma {:induction false} MinimaTie(txs: map<Digest, Entry>, s: Digest, t: Digest)
    requires Lowest(txs, s) && Lowest(txs, t)
    ensures !WrappedLess(txs[s], txs[t])
  {
    assert txs[s].fee * txs[t].size == txs[t].fee * txs[s].size by {
      assert RateLe(txs[s], txs[t]) && RateLe(txs[t], txs[s]);
    }
  }

  /** Once an entry of minimum rate has been visited, the scan holds one. */
  lemma {:induction false} ScanHoldsLowest(txs: map<Digest, Entry>, order: seq<Digest>, i: nat)
    requires (forall j :: 0 <= j < |order| ==> order[j] in txs) && i < |order| && Lowest(txs, order[i])
    requires MinimaShow(txs)
    ensures ScanLow(txs, order).Some? && Lowest(txs, ScanLow(txs, order).value)
    decreases |order|
  {
    hide WrappedLess, Lowest;
    var n := |order| - 1;
    var before, h := order[..n], order[n];
    var low := ScanLow(txs, before);
    if i < n {
      ScanHoldsLowest(txs, before, i);
      WrappedAsymmetric(txs[low.value], txs[h]);
    } else if low.Some? && Lowest(txs, low.value) {
      MinimaTie(txs, h, low.value);
    }
  }

  /** A pool that is not empty has an entry of minimum rate. */
  lemma {:induction false} HasLowest(txs: map<Digest, Entry>) returns (m: Digest)
    requires txs != map[] && forall k :: k in txs ==> txs[k].size > 0
    ensures Lowest(txs, m)
    decreases |txs|
  {
    hide RateLe;
    var k :| k in txs;
    var rest := txs - {k};
    DropSmaller(txs, k);
    RateLeTotal(txs[k], txs[k]);
    if rest == map[] {
      m := k;
      assert forall h :: h in txs ==> h == k;
    } else {
      m := HasLowest(rest);
      RateLeTotal(txs[k], txs[m]);
      if RateLe(txs[k], txs[m]) {
        forall h | h in txs
          ensures RateLe(txs[k], txs[h])
        {
          if h != k {
            assert RateLe(rest[m], rest[h]);
            RateLeTransitive(txs[k], txs[m], txs[h]);
          }
        }
        m := k;
      } else {
        forall h | h in txs
          ensures RateLe(txs[m], txs[h])
        {
          assert h != k ==> RateLe(rest[m], rest[h]);
        }
      }
    }
  }

  lemma {:induction false} RateLeTotal(a: Entry, b: Entry)
    ensures RateLe(a, b) || RateLe(b, a)
  {
  }

  lemma {:induction false} ScanIsLowest(txs: map<Digest, Entry>, order: seq<Digest>)
    requires Visits(order, txs.Keys) && txs != map[] && MinimaShow(txs) && forall k :: k in txs ==> txs[k].size > 0
    ensures ScanLow(txs, order).Some? && Lowest(txs, ScanLow(txs, order).value)
  {
    hide ScanLow, MinimaShow, Lowest;
    var m := HasLowest(txs);
    LowestIsThere(txs, m);
    var i := VisitsAll(order, txs.Keys, m);
    ScanHoldsLowest(txs, order, i);
  }

  lemma {:induction false} LowestIsThere(txs: map<Digest, Entry>, m: Digest)
    requires Lowest(txs, m)
    ensures m in txs
  {
  }

  lemma {:induction false} VisitsAll(order: seq<Digest>, keys: set<Digest>, m: Digest) returns (i: nat)
    requires Visits(order, keys) && m in keys
    ensures i < |order| && order[i] == m
    decreases |order|
  {
    assert |keys| > 0;
    var n := |order| - 1;
    if order[n] == m {
      i := n;
    } else {
      i := VisitsAll(order[..n], keys - {order[n]}, m);
    }
  }

  /** If no product wraps, the minima show. */
  lemma {:induction false} NoWrapShows(txs: map<Digest, Entry>)
    requires NoWrap(txs) && forall k :: k in txs ==> txs[k].size > 0
    ensures MinimaShow(txs)
  {
    hide NoWrap, WrappedLess, RateLe;
    forall s, x | Lowest(txs, s) && x in txs && !Lowest(txs, x)
      ensures WrappedLess(txs[s], txs[x])
    {
      SmallProducts(txs, s, x);
      if !WrappedLess(txs[s], txs[x]) {
        forall h | h in txs
          ensures RateLe(txs[x], txs[h])
        {
          RateLeTransitive(txs[x], txs[s], txs[h]);
        }
      }
    }
  }

  /** What holds while the scan has still to visit `todo`. */
  ghost predicate Scanned(txs: map<Digest, Entry>, todo: set<Digest>, order: seq<Digest>, low: Option<Digest>) {
    && todo <= txs.Keys && Visits(order, txs.Keys - todo) && low == ScanLow(txs, order)
    && (low.None? <==> todo == txs.Keys) && (low.Some? ==> low.value in txs)
  }

  lemma {:induction false} ScannedNone(txs: map<Digest, Entry>)
    ensures Scanned(txs, txs.Keys, [], None)
  {
    assert txs.Keys - txs.Keys == {};
  }

  lemma {:induction false} ScannedStep(txs: map<Digest, Entry>, todo: set<Digest>, order: seq<Digest>,
                                       low: Option<Digest>, h: Digest)
    requires Scanned(txs, todo, order, low) && h in todo
    ensures low.Some? ==> low.value in txs
    ensures h in txs
    ensures Scanned(txs, todo - {h}, order + [h], if low.None? ||
              WrappedLess(txs[h], txs[low.value]) then Some(h) else low)
  {
    hide WrappedLess, ScanLow;
    ScanNext(txs, order, h);
    VisitsMore(order, txs.Keys - todo, h);
    assert txs.Keys - (todo - {h}) == (txs.Keys - todo) + {h};
  }

  lemma {:induction false} ScannedAll(txs: map<Digest, Entry>, order: seq<Digest>, low: Option<Digest>)
    requires Scanned(txs, {}, order, low) && forall k :: k in txs ==> txs[k].size > 0
    ensures Visits(order, txs.Keys) && low == ScanLow(txs, order)
    ensures (low.None? <==> txs == map[]) && (low.Some? && MinimaShow(txs) ==> Lowest(txs, low.value))
  {
    hide ScanLow, MinimaShow, Lowest;
    assert txs.Keys - {} == txs.Keys;
    assert txs.Keys == {} <==> txs == map[];
    if txs != map[] && MinimaShow(txs) {
      ScanIsLowest(txs, order);
    }
  }

  lemma {:induction false} SmallProducts(txs: map<Digest, Entry>, h: Digest, k: Digest)
    requires NoWrap(txs) && h in txs && k in txs
    ensures WrappedLess(txs[h], txs[k]) <==> txs[h].fee * txs[k].size < txs[k].fee * txs[h].size
    ensures WrappedLess(txs[h], txs[k]) ==> RateLe(txs[h], txs[k])
    ensures !WrappedLess(txs[h], txs[k]) ==> RateLe(txs[k], txs[h])
  {
    SmallMod(txs[h].fee * txs[k].size);
    SmallMod(txs[k].fee * txs[h].size);
  }

  lemma {:induction false} SmallMod(x: nat)
    requires x < TWO64
    ensures x % TWO64 == x
  {
  }
}
