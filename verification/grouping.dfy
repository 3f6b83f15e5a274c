/** Group-by-key sums, as the services compute them when they fold a list
    of rows into one entry per block: the keys in order of first
    appearance, the per-key total of a weight, and the fact that the
    per-key totals add up to the overall total. */
module Grouping {

  /** No key appears twice. */
  predicate Unique<K(==, !new)>(keys: seq<K>)
  {
    forall i, j :: 0 <= i < j < |keys| ==> keys[i] != keys[j]
  }

  /** The distinct keys of a list, in order of first appearance (a key is
      appended the first time a left-to-right scan meets it). */
  function FirstSeen<K(==, !new)>(ks: seq<K>): (r: seq<K>)
    ensures forall k :: k in r <==> k in ks
    ensures Unique(r)
    ensures |r| <= |ks|
    decreases |ks|
  {
    if |ks| == 0 then []
    else
      var n := |ks| - 1;
      var p := FirstSeen(ks[..n]);
      assert forall k :: k in ks <==> k in ks[..n] || k == ks[n] by {
        assert ks == ks[..n] + [ks[n]];
      }
      if ks[n] in p then p else p + [ks[n]]
  }

  /** Sum of a list of integers. */
  function Sum(ws: seq<int>): int
    decreases |ws|
  {
    if |ws| == 0 then 0 else Sum(ws[..|ws| - 1]) + ws[|ws| - 1]
  }

  /** The sum of the weights whose key is `k` (keys and weights are parallel). */
  function Total<K(==, !new)>(ks: seq<K>, ws: seq<int>, k: K): int
    requires |ks| == |ws|
    decreases |ks|
  {
    if |ks| == 0 then 0
    else
      var n := |ks| - 1;
      Total(ks[..n], ws[..n], k) + (if ks[n] == k then ws[n] else 0)
  }

  /** The per-key totals of the given keys, added up. */
  function SumOver<K(==, !new)>(keys: seq<K>, ks: seq<K>, ws: seq<int>): int
    requires |ks| == |ws|
    decreases |keys|
  {
    if |keys| == 0 then 0 else Total(ks, ws, keys[0]) + SumOver(keys[1..], ks, ws)
  }

  /** A count is a total of ones. */
  function Ones(n: nat): (r: seq<int>)
    ensures |r| == n
    ensures forall i :: 0 <= i < n ==> r[i] == 1
  {
    seq(n, _ => 1)
  }

  lemma OnesPrefix(n: nat, m: nat)
    requires m <= n
    ensures Ones(n)[..m] == Ones(m)
  {
  }

  /** Counting with ones gives the count. */
  lemma {:induction false} SumOnes(n: nat)
    ensures Sum(Ones(n)) == n
    decreases n
  {
    if n > 0 {
      OnesPrefix(n, n - 1);
      SumOnes(n - 1);
    }
  }

  /** One more row, seen by a left-to-right scan. */
  lemma FirstSeenStep<K(!new)>(ks: seq<K>, i: nat)
    requires i < |ks|
    ensures FirstSeen(ks[..i + 1])
            == if ks[i] in FirstSeen(ks[..i]) then FirstSeen(ks[..i]) else FirstSeen(ks[..i]) + [ks[i]]
  {
    assert ks[..i + 1][..i] == ks[..i];
  }

  lemma TotalStep<K(!new)>(ks: seq<K>, ws: seq<int>, i: nat, k: K)
    requires |ks| == |ws| && i < |ks|
    ensures Total(ks[..i + 1], ws[..i + 1], k) == Total(ks[..i], ws[..i], k) + (if ks[i] == k then ws[i] else 0)
  {
    assert ks[..i + 1][..i] == ks[..i] && ws[..i + 1][..i] == ws[..i];
  }

  /** A key that does not occur has total zero. */
  lemma {:induction false} TotalAbsent<K(!new)>(ks: seq<K>, ws: seq<int>, k: K)
    requires |ks| == |ws|
    requires k !in ks
    ensures Total(ks, ws, k) == 0
    decreases |ks|
  {
    if |ks| > 0 {
      var n := |ks| - 1;
      TotalAbsent(ks[..n], ws[..n], k);
    }
  }

  /** Totals of non-negative weights are non-negative. */
  lemma {:induction false} TotalNonNegative<K(!new)>(ks: seq<K>, ws: seq<int>, k: K)
    requires |ks| == |ws|
    requires forall i :: 0 <= i < |ws| ==> ws[i] >= 0
    ensures Total(ks, ws, k) >= 0
    decreases |ks|
  {
    if |ks| > 0 {
      var n := |ks| - 1;
      TotalNonNegative(ks[..n], ws[..n], k);
    }
  }

  /** Extending the rows by one adds that row's weight to the totals of
      distinct keys exactly once, when its key is among them. */
  lemma {:induction false} SumOverStep<K(!new)>(keys: seq<K>, ks: seq<K>, ws: seq<int>)
    requires |ks| == |ws| && |ks| > 0
    requires Unique(keys)
    ensures var n := |ks| - 1;
            SumOver(keys, ks, ws)
            == SumOver(keys, ks[..n], ws[..n]) + (if ks[n] in keys then ws[n] else 0)
    decreases |keys|
  {
    if |keys| > 0 {
      var n := |ks| - 1;
      assert Unique(keys[1..]);
      SumOverStep(keys[1..], ks, ws);
      assert ks[n] in keys <==> ks[n] == keys[0] || ks[n] in keys[1..] by {
        assert keys == [keys[0]] + keys[1..];
      }
      assert ks[n] == keys[0] ==> ks[n] !in keys[1..];
    }
  }

  lemma {:induction false} SumOverAppend<K(!new)>(keys: seq<K>, k: K, ks: seq<K>, ws: seq<int>)
    requires |ks| == |ws|
    ensures SumOver(keys + [k], ks, ws) == SumOver(keys, ks, ws) + Total(ks, ws, k)
    decreases |keys|
  {
    if |keys| > 0 {
      assert (keys + [k])[1..] == keys[1..] + [k];
      SumOverAppend(keys[1..], k, ks, ws);
    }
  }

  /** Grouping loses and duplicates nothing: the per-key totals over the
      distinct keys add up to the sum of all the weights. */
  lemma {:induction false} GroupTotals<K(!new)>(ks: seq<K>, ws: seq<int>)
    requires |ks| == |ws|
    ensures SumOver(FirstSeen(ks), ks, ws) == Sum(ws)
    decreases |ks|
  {
    if |ks| > 0 {
      var n := |ks| - 1;
      var p := FirstSeen(ks[..n]);
      GroupTotals(ks[..n], ws[..n]);
      SumOverStep(p, ks, ws);
      if ks[n] !in p {
        SumOverAppend(p, ks[n], ks, ws);
        TotalAbsent(ks[..n], ws[..n], ks[n]);
      }
    }
  }

  /** Totals respect a pointwise bound on the weights. */
  lemma {:induction false} TotalBounded<K(!new)>(ks: seq<K>, ws: seq<int>, vs: seq<int>, k: K)
    requires |ks| == |ws| == |vs|
    requires forall i :: 0 <= i < |ws| ==> ws[i] <= vs[i]
    ensures Total(ks, ws, k) <= Total(ks, vs, k)
    decreases |ks|
  {
    if |ks| > 0 {
      var n := |ks| - 1;
      TotalBounded(ks[..n], ws[..n], vs[..n], k);
    }
  }

  /** Any list of distinct keys that covers every row's key, in any order,
      has per-key totals adding up to the sum of all the weights. */
  lemma {:induction false} CoveringTotals<K(!new)>(keys: seq<K>, ks: seq<K>, ws: seq<int>)
    requires |ks| == |ws|
    requires Unique(keys)
    requires forall i :: 0 <= i < |ks| ==> ks[i] in keys
    ensures SumOver(keys, ks, ws) == Sum(ws)
    decreases |ks|
  {
    if |ks| == 0 {
      NoRows(keys, ks, ws);
    } else {
      var n := |ks| - 1;
      CoveringTotals(keys, ks[..n], ws[..n]);
      SumOverStep(keys, ks, ws);
    }
  }

  lemma {:induction false} NoRows<K(!new)>(keys: seq<K>, ks: seq<K>, ws: seq<int>)
    requires |ks| == |ws| == 0
    ensures SumOver(keys, ks, ws) == 0
    decreases |keys|
  {
    if |keys| > 0 {
      NoRows(keys[1..], ks, ws);
    }
  }

  /** Totals are additive in the weights. */
  lemma {:induction false} TotalAdd<K(!new)>(ks: seq<K>, ws: seq<int>, vs: seq<int>, us: seq<int>, k: K)
    requires |ks| == |ws| == |vs| == |us|
    requires forall i :: 0 <= i < |us| ==> us[i] == ws[i] + vs[i]
    ensures Total(ks, us, k) == Total(ks, ws, k) + Total(ks, vs, k)
    decreases |ks|
  {
    if |ks| > 0 {
      var n := |ks| - 1;
      TotalAdd(ks[..n], ws[..n], vs[..n], us[..n], k);
    }
  }
}
