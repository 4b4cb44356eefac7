/**
 * Listing coins and summing balances (storage/storage.go).
 */
module Balances {
  import opened Base
  import opened Params
  import opened Blocks
  import opened Validation
  import opened Ledger
  import opened Conservation
  import opened Supply
  import opened Storage
  import opened Chains
  import opened Refinement

  /** `out` holds every coin of `m` once, in some order. */
  ghost predicate ListsCoins(out: seq<UTXO>, m: Utxos) {
    && (forall i :: 0 <= i < |out| ==> KeyOf(out[i]) in m && m[KeyOf(out[i])] == out[i])
    && (forall i, j :: 0 <= i < j < |out| ==> KeyOf(out[i]) != KeyOf(out[j]))
    && (forall o :: o in m ==> exists i :: 0 <= i < |out| && KeyOf(out[i]) == o)
  }

  /** The coins locked by a script. */
  function Owned(m: Utxos, script: seq<byte>): Utxos {
    map o | o in m && m[o].script == script :: m[o]
  }

  function SumCoins(out: seq<UTXO>, n: nat): nat
    requires n <= |out|
  {
    if n == 0 then 0 else SumCoins(out, n - 1) + out[n - 1].amount
  }

  lemma {:induction false} SumIsTotal(out: seq<UTXO>, m: Utxos)
    requires ListsCoins(out, m)
    ensures SumCoins(out, |out|) == Total(m)
    decreases |out|
  {
    hide ListsCoins, Total, SumCoins;
    if out == [] {
      ListsNothing(m);
    } else {
      var n := |out| - 1;
      ListsRest(out, m);
      SumIsTotal(out[..n], m - {KeyOf(out[n])});
      SumLast(out);
      TotalRemove(m, KeyOf(out[n]));
    }
  }

  lemma {:induction false} ListsNothing(m: Utxos)
    requires ListsCoins([], m)
    ensures SumCoins([], 0) == Total(m) == 0
  {
    assert m == map[];
  }

  lemma {:induction false} SumLast(out: seq<UTXO>)
    requires out != []
    ensures SumCoins(out, |out|) == SumCoins(out[..|out| - 1], |out| - 1) + out[|out| - 1].amount
  {
    SumPrefix(out, |out| - 1, |out| - 1);
  }

  lemma {:induction false} ListsRest(out: seq<UTXO>, m: Utxos)
    requires ListsCoins(out, m) && out != []
    ensures var n := |out| - 1;
            KeyOf(out[n]) in m && m[KeyOf(out[n])] == out[n] && ListsCoins(out[..n], m - {KeyOf(out[n])})
  {
    hide KeyOf;
    var n := |out| - 1;
    var last, rest := KeyOf(out[n]), out[..n];
    forall o | o in m - {last}
      ensures exists i :: 0 <= i < |rest| && KeyOf(rest[i]) == o
    {
      var i :| 0 <= i < |out| && KeyOf(out[i]) == o;
      assert KeyOf(rest[i]) == o;
    }
  }

  lemma {:induction false} SumPrefix(out: seq<UTXO>, n: nat, k: nat)
    requires k <= n <= |out|
    ensures SumCoins(out[..n], k) == SumCoins(out, k)
  {
    if k > 0 {
      SumPrefix(out, n, k - 1);
    }
  }

  lemma {:induction false} SumMonotone(out: seq<UTXO>, i: nat, n: nat)
    requires i <= n <= |out|
    ensures SumCoins(out, i) <= SumCoins(out, n)
  {
    if i < n {
      SumMonotone(out, i, n - 1);
    }
  }

  lemma {:induction false} OwnedTotal(m: Utxos, script: seq<byte>)
    ensures Total(Owned(m, script)) <= Total(m)
    decreases |m|
  {
    if o :| o in m {
      var rest := m - {o};
      assert m.Keys == rest.Keys + {o};
      OwnedTotal(rest, script);
      TotalRemove(m, o);
      if m[o].script == script {
        TotalRemove(Owned(m, script), o);
        assert Owned(m, script) - {o} == Owned(rest, script);
      } else {
        assert Owned(m, script) == Owned(rest, script);
      }
    } else {
      assert Owned(m, script) == m;
    }
  }

  /** `ListUTXOs`: the walk over all coins, in the order the store yields them. */
  method ListUTXOs(d: DB) returns (out: seq<UTXO>)
    requires WellKeyed(d.utxo)
    ensures ListsCoins(out, d.utxo)
  {
    hide ListsCoins, KeyOf;
    out := [];
    var todo := d.utxo.Keys;
    assert d.utxo - todo == map[];
    ListsNone();
    while todo != {}
      invariant todo <= d.utxo.Keys && ListsCoins(out, d.utxo - todo)
      decreases |todo|
    {
      var o :| o in todo;
      ListsMore(out, d.utxo - todo, d.utxo[o]);
      assert d.utxo - (todo - {o}) == (d.utxo - todo)[o := d.utxo[o]];
      out := out + [d.utxo[o]];
      todo := todo - {o};
    }
    assert d.utxo - todo == d.utxo;
  }

  lemma {:induction false} ListsNone()
    ensures ListsCoins([], map[])
  {
  }

  lemma {:induction false} ListsMore(out: seq<UTXO>, m: Utxos, u: UTXO)
    requires ListsCoins(out, m) && KeyOf(u) !in m
    ensures ListsCoins(out + [u], m[KeyOf(u) := u])
  {
    hide KeyOf;
    var more, after := out + [u], m[KeyOf(u) := u];
    forall o | o in after
      ensures exists i :: 0 <= i < |more| && KeyOf(more[i]) == o
    {
      if o in m {
        var i :| 0 <= i < |out| && KeyOf(out[i]) == o;
        assert KeyOf(more[i]) == o;
      } else {
        assert KeyOf(more[|out|]) == o;
      }
    }
  }

  /** The coins among the first `n` that the script locks, in order. */
  function Filtered(all: seq<UTXO>, script: seq<byte>, n: nat): seq<UTXO>
    requires n <= |all|
  {
    if n == 0 then []
    else Filtered(all, script, n - 1) + if all[n - 1].script == script then [all[n - 1]] else []
  }

  lemma {:induction false} FilteredFacts(all: seq<UTXO>, script: seq<byte>, n: nat)
    requires n <= |all|
    requires forall i, j :: 0 <= i < j < |all| ==> KeyOf(all[i]) != KeyOf(all[j])
    ensures forall u :: u in Filtered(all, script, n) <==> u in all[..n] && u.script == script
    ensures forall i, j :: 0 <= i < j < |Filtered(all, script, n)| ==>
              KeyOf(Filtered(all, script, n)[i]) != KeyOf(Filtered(all, script, n)[j])
  {
    if n > 0 {
      FilteredFacts(all, script, n - 1);
      assert all[..n] == all[..n - 1] + [all[n - 1]];
      var before, after := Filtered(all, script, n - 1), Filtered(all, script, n);
      forall i | 0 <= i < |before|
        ensures KeyOf(before[i]) != KeyOf(all[n - 1])
      {
        assert before[i] in all[..n - 1];
      }
    }
  }

  lemma {:induction false} FilteredLists(all: seq<UTXO>, m: Utxos, script: seq<byte>)
    requires ListsCoins(all, m)
    ensures ListsCoins(Filtered(all, script, |all|), Owned(m, script))
  {
    hide Filtered;
    FilteredFacts(all, script, |all|);
    var out := Filtered(all, script, |all|);
    assert all[..|all|] == all;
    forall i | 0 <= i < |out|
      ensures KeyOf(out[i]) in Owned(m, script) && Owned(m, script)[KeyOf(out[i])] == out[i]
    {
      assert out[i] in out;
      var j :| 0 <= j < |all| && all[j] == out[i];
      assert KeyOf(all[j]) in m;
    }
    forall o | o in Owned(m, script)
      ensures exists i :: 0 <= i < |out| && KeyOf(out[i]) == o
    {
      var j :| 0 <= j < |all| && KeyOf(all[j]) == o;
      assert all[j] in out;
    }
  }

  /** `ListUTXOsByScript`: exactly the coins locked by the script. */
  method ListUTXOsByScript(d: DB, script: seq<byte>) returns (out: seq<UTXO>)
    requires WellKeyed(d.utxo)
    ensures ListsCoins(out, Owned(d.utxo, script))
  {
    hide ListsCoins, Owned, WellKeyed;
    var all := ListUTXOs(d);
    out := [];
    for i := 0 to |all|
      invariant out == Filtered(all, script, i)
    {
      if all[i].script == script {
        out := out + [all[i]];
      }
    }
    FilteredLists(all, d.utxo, script);
  }

  /** `BalanceByScript`: the value of the script's coins, or an inflation error if it exceeds 64 bits. */
  method BalanceByScript(d: DB, script: seq<byte>) returns (r: Result<u64, TxError>)
    requires WellKeyed(d.utxo)
    ensures r.Ok? <==> Total(Owned(d.utxo, script)) <= U64_MAX
    ensures r.Ok? ==> r.value == Total(Owned(d.utxo, script))
    ensures r.Err? ==> r.error == Inflation
  {
    var utxos := ListUTXOsByScript(d, script);
    SumIsTotal(utxos, Owned(d.utxo, script));
    var total: u64 := 0;
    for i := 0 to |utxos|
      invariant total == SumCoins(utxos, i)
    {
      SumMonotone(utxos, i + 1, |utxos|);
      if U64_MAX - total < utxos[i].amount {
        return Err(Inflation);
      }
      total := total + utxos[i].amount;
    }
    return Ok(total);
  }

  /** On a store that represents a valid chain, no balance overflows. */
  lemma {:induction false} BalanceIsSafe(st: State, chain: seq<Block>, verifier: Verifier, script: seq<byte>)
    requires Represents(st, chain) && ValidChain(chain, verifier)
    ensures WellKeyed(st.utxo)
    ensures Total(Owned(st.utxo, script)) <= RewardSum(|chain|) < MAX_SUPPLY <= U64_MAX
  {
    hide Represents, ValidChain, Owned, Total, RewardSum, Replay;
    RepresentsReplay(st, chain);
    ReplayWellKeyed(chain);
    SupplyCap(chain, verifier);
    OwnedTotal(st.utxo, script);
  }

  lemma {:induction false} RepresentsReplay(st: State, chain: seq<Block>)
    requires Represents(st, chain)
    ensures st.utxo == Replay(chain)
  {
  }
}
