/**
  Selecting a key from a pool and failing over to another one (agently/utils/ModelPool.py:73-96, 317-354 and
  397-472).
 */
module KeyPool {
  import opened Residues

  // Selection (lines 73-96).

  datatype Selected = Key(id: string) | ValueError

  /** `counters.get(key, 0)` */
  function Count(counters: map<string, nat>, key: string): nat { if key in counters then counters[key] else 0 }

  /** The first key of the pool with the smallest count, as Python's `min` finds it. */
  function LeastUsed(pool: seq<string>, usage: map<string, nat>): (i: nat)
    requires pool != []
    ensures i < |pool|
    ensures forall k :: 0 <= k < |pool| ==> Count(usage, pool[i]) <= Count(usage, pool[k])
    ensures forall k :: 0 <= k < i ==> Count(usage, pool[i]) < Count(usage, pool[k])
  {
    if |pool| == 1 then 0
    else
      var rest := 1 + LeastUsed(pool[1..], usage);
      assert forall k :: 1 <= k < |pool| ==> pool[k] == pool[1..][k - 1];
      if Count(usage, pool[0]) <= Count(usage, pool[rest]) then 0 else rest
  }

  /** The counters of the process. */
  class KeySelector {
    var roundRobin: map<string, nat>
    var usage: map<string, nat>

    constructor ()
      ensures roundRobin == map[] && usage == map[]
    {
      roundRobin, usage := map[], map[];
    }

    /** `pick` stands for the random choice. */
    method SelectKey(mode: string, pool: seq<string>, modelName: string, pick: nat) returns (selected: Selected)
      requires pick < |pool| || pool == []
      modifies this
      ensures selected.ValueError? <==> pool == [] || mode !in ["fixed", "random", "round_robin", "least_used"]
      ensures selected.Key? ==> selected.id in pool
      ensures selected.Key? && mode == "fixed" ==> selected.id == pool[0]
      ensures selected.Key? && mode == "random" ==> selected.id == pool[pick]
      ensures selected.Key? && mode == "round_robin" ==>
        selected.id == pool[Count(old(roundRobin), modelName) % |pool|]
        && roundRobin == old(roundRobin)[modelName := Count(old(roundRobin), modelName) + 1] && usage == old(usage)
      ensures selected.Key? && mode == "least_used" ==>
        selected.id == pool[LeastUsed(pool, old(usage))]
        && usage == Used(old(usage), pool) && roundRobin == old(roundRobin)
      ensures selected.ValueError? || mode in ["fixed", "random"] ==>
        roundRobin == old(roundRobin) && usage == old(usage)
    {
      if pool == [] { return ValueError; }
      if mode == "fixed" { return Key(pool[0]); }
      if mode == "random" { return Key(pool[pick]); }
      if mode == "round_robin" {
        var idx := Count(roundRobin, modelName);
        selected := Key(pool[idx % |pool|]);
        roundRobin := roundRobin[modelName := idx + 1];
        return;
      }
      if mode == "least_used" {
        var least := 0;
        for i := 1 to |pool|
          invariant least < |pool| && least < i
          invariant forall k :: 0 <= k < i ==> Count(usage, pool[least]) <= Count(usage, pool[k])
          invariant forall k :: 0 <= k < least ==> Count(usage, pool[least]) < Count(usage, pool[k])
        {
          if Count(usage, pool[i]) < Count(usage, pool[least]) { least := i; }
        }
        OnlyLeast(pool, usage, least);
        selected := Key(pool[least]);
        usage := usage[pool[least] := Count(usage, pool[least]) + 1];
        return;
      }
      return ValueError;
    }
  }

  lemma OnlyLeast(pool: seq<string>, usage: map<string, nat>, i: nat)
    requires i < |pool|
    requires forall k :: 0 <= k < |pool| ==> Count(usage, pool[i]) <= Count(usage, pool[k])
    requires forall k :: 0 <= k < i ==> Count(usage, pool[i]) < Count(usage, pool[k])
    ensures LeastUsed(pool, usage) == i
  {
    hide Count;
    var j := LeastUsed(pool, usage);
    assert Count(usage, pool[i]) <= Count(usage, pool[j]) && Count(usage, pool[j]) <= Count(usage, pool[i]);
  }

  function Used(usage: map<string, nat>, pool: seq<string>): map<string, nat>
    requires pool != []
  {
    var id := pool[LeastUsed(pool, usage)];
    usage[id := Count(usage, id) + 1]
  }

  /** The counts of any two keys of the pool are at most `d` apart. */
  predicate Spread(usage: map<string, nat>, pool: seq<string>, d: nat) {
    forall i, j :: 0 <= i < |pool| && 0 <= j < |pool| ==> Count(usage, pool[i]) <= Count(usage, pool[j]) + d
  }

  predicate Disjoint(p: seq<string>, q: seq<string>) { forall i, j :: 0 <= i < |p| && 0 <= j < |q| ==> p[i] != q[j] }

  /** Any number of `least_used` selections, from this pool or from pools without any of its keys. */
  function UsedAll(usage: map<string, nat>, pools: seq<seq<string>>): map<string, nat>
    requires forall i :: 0 <= i < |pools| ==> pools[i] != []
  {
    if pools == [] then usage else Used(UsedAll(usage, pools[..|pools| - 1]), pools[|pools| - 1])
  }

  lemma SpreadOnce(usage: map<string, nat>, pool: seq<string>, other: seq<string>, d: nat)
    requires other != [] && (other == pool || Disjoint(pool, other)) && Spread(usage, pool, d)
    ensures Spread(Used(usage, other), pool, if d > 1 then d else 1)
  {
    var least := LeastUsed(other, usage);
    var id := other[least];
    forall i, j | 0 <= i < |pool| && 0 <= j < |pool|
      ensures Count(Used(usage, other), pool[i]) <= Count(Used(usage, other), pool[j]) + if d > 1 then d else 1
    {
      if other == pool && pool[i] == id {
        assert Count(usage, pool[least]) <= Count(usage, pool[j]);
      } else if other != pool {
        assert pool[i] != other[least] && pool[j] != other[least];
      }
    }
  }

  /** `least_used` keeps a pool even: the spread never exceeds the larger of the initial spread and 1. */
  lemma {:induction false} SpreadStays(usage: map<string, nat>, pool: seq<string>, pools: seq<seq<string>>, d: nat)
    requires forall i :: 0 <= i < |pools| ==> pools[i] != [] && (pools[i] == pool || Disjoint(pool, pools[i]))
    requires Spread(usage, pool, d)
    ensures Spread(UsedAll(usage, pools), pool, if d > 1 then d else 1)
    decreases |pools|
  {
    hide Used, Disjoint, Spread;
    var top := if d > 1 then d else 1;
    if pools == [] {
      SpreadWider(usage, pool, d, top);
    } else {
      var before := pools[..|pools| - 1];
      assert forall i :: 0 <= i < |before| ==> before[i] == pools[i];
      SpreadStays(usage, pool, before, d);
      SpreadOnce(UsedAll(usage, before), pool, pools[|pools| - 1], top);
    }
  }

  lemma SpreadWider(usage: map<string, nat>, pool: seq<string>, d: nat, e: nat)
    requires Spread(usage, pool, d) && d <= e
    ensures Spread(usage, pool, e)
  {
  }

  // Counts after a number of selections.

  predicate Distinct(pool: seq<string>) { forall i, j :: 0 <= i < j < |pool| ==> pool[i] != pool[j] }

  function Total(usage: map<string, nat>, pool: seq<string>): nat {
    if pool == [] then 0 else Count(usage, pool[0]) + Total(usage, pool[1..])
  }

  lemma {:induction false} TotalElsewhere(usage: map<string, nat>, pool: seq<string>, id: string, n: nat)
    requires id !in pool
    ensures Total(usage[id := n], pool) == Total(usage, pool)
  {
    if pool != [] { TotalElsewhere(usage, pool[1..], id, n); }
  }

  lemma {:induction false} TotalGrows(usage: map<string, nat>, pool: seq<string>, i: nat)
    requires Distinct(pool) && i < |pool|
    ensures Total(usage[pool[i] := Count(usage, pool[i]) + 1], pool) == Total(usage, pool) + 1
  {
    if i == 0 {
      assert pool[0] !in pool[1..];
      TotalElsewhere(usage, pool[1..], pool[0], Count(usage, pool[0]) + 1);
    } else {
      assert pool[i] == pool[1..][i - 1];
      TotalGrows(usage, pool[1..], i - 1);
    }
  }

  lemma {:induction false} TotalBetween(usage: map<string, nat>, pool: seq<string>, m: nat)
    requires forall k :: 0 <= k < |pool| ==> m <= Count(usage, pool[k]) <= m + 1
    ensures |pool| * m <= Total(usage, pool) <= |pool| * m + |pool|
    ensures (exists k :: 0 <= k < |pool| && Count(usage, pool[k]) == m) ==> Total(usage, pool) < |pool| * m + |pool|
  {
    if pool != [] {
      var rest := pool[1..];
      assert forall k :: 0 <= k < |rest| ==> rest[k] == pool[k + 1];
      TotalBetween(usage, rest, m);
      assert |pool| * m == |rest| * m + m;
      if k :| 0 <= k < |pool| && Count(usage, pool[k]) == m {
        if k > 0 { assert rest[k - 1] == pool[k]; }
      }
    }
  }

  function Repeat(pool: seq<string>, n: nat): (r: seq<seq<string>>)
    ensures |r| == n && forall i :: 0 <= i < n ==> r[i] == pool
  {
    seq(n, i => pool)
  }

  lemma {:induction false} TotalIsSelections(pool: seq<string>, n: nat)
    requires Distinct(pool) && pool != []
    ensures Total(UsedAll(map[], Repeat(pool, n)), pool) == n
    decreases n
  {
    if n == 0 {
      NothingUsed(pool);
    } else {
      assert Repeat(pool, n)[..n - 1] == Repeat(pool, n - 1);
      TotalIsSelections(pool, n - 1);
      TotalGrows(UsedAll(map[], Repeat(pool, n - 1)), pool, LeastUsed(pool, UsedAll(map[], Repeat(pool, n - 1))));
    }
  }

  lemma {:induction false} NothingUsed(pool: seq<string>)
    ensures Total(map[], pool) == 0
  {
    if pool != [] { NothingUsed(pool[1..]); }
  }

  /** After `n` selections from one pool of different keys, each key was used `n / |pool|` times or once more. */
  lemma UseIsEven(pool: seq<string>, n: nat, k: nat)
    requires Distinct(pool) && k < |pool|
    ensures n / |pool| <= Count(UsedAll(map[], Repeat(pool, n)), pool[k]) <= n / |pool| + 1
  {
    var usage := UsedAll(map[], Repeat(pool, n));
    SpreadStays(map[], pool, Repeat(pool, n), 0);
    TotalIsSelections(pool, n);
    var least := LeastUsed(pool, usage);
    var m := Count(usage, pool[least]);
    assert Spread(usage, pool, 1);
    hide UsedAll, Total;
    forall j | 0 <= j < |pool| ensures m <= Count(usage, pool[j]) <= m + 1 {}
    TotalBetween(usage, pool, m);
    Quotient(n, |pool|, m, n - |pool| * m);
  }
}
