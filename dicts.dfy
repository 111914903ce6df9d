/**
 * Python dictionaries as the scraper uses them: a run of `d[k] = v` assignments
 * (later writes to a key overwrite earlier ones), and a dict whose iteration order
 * is the order in which keys were first inserted.
 */
module Dicts {
  import opened Wrappers

  /** The dict `m` after the assignments `m[k] = v` for each `(k, v)` of `ps`, in order. */
  function AssignAll<K, V>(m: map<K, V>, ps: seq<(K, V)>): map<K, V>
    decreases |ps|
  {
    if ps == [] then m
    else
      var last := ps[|ps| - 1];
      AssignAll(m, ps[..|ps| - 1])[last.0 := last.1]
  }

  /** Assignments add exactly the assigned keys. */
  lemma {:induction false} AssignAllKeys<K, V>(m: map<K, V>, ps: seq<(K, V)>)
    ensures AssignAll(m, ps).Keys == m.Keys + set n | 0 <= n < |ps| :: ps[n].0
    decreases |ps|
  {
    if ps != [] {
      var init := ps[..|ps| - 1];
      AssignAllKeys(m, init);
      var later := set n | 0 <= n < |ps| :: ps[n].0;
      var earlier := set n | 0 <= n < |init| :: init[n].0;
      assert later == earlier + {ps[|ps| - 1].0} by {
        forall k | k in later ensures k in earlier + {ps[|ps| - 1].0} {
          var n :| 0 <= n < |ps| && ps[n].0 == k;
          if n < |init| { assert init[n].0 == k; }
        }
        forall k | k in earlier ensures k in later {
          var n :| 0 <= n < |init| && init[n].0 == k;
          assert ps[n].0 == k;
        }
      }
    }
  }

  /** The value of a key is the one its last assignment wrote. */
  lemma {:induction false} AssignAllLastWins<K, V>(m: map<K, V>, ps: seq<(K, V)>, n: nat)
    requires n < |ps|
    requires forall j | n < j < |ps| :: ps[j].0 != ps[n].0
    ensures ps[n].0 in AssignAll(m, ps) && AssignAll(m, ps)[ps[n].0] == ps[n].1
    decreases |ps|
  {
    if n < |ps| - 1 {
      var init := ps[..|ps| - 1];
      AssignAllLastWins(m, init, n);
    }
  }

  /** A key that is never assigned keeps its entry (or its absence). */
  lemma {:induction false} AssignAllOthers<K, V>(m: map<K, V>, ps: seq<(K, V)>, k: K)
    requires forall j | 0 <= j < |ps| :: ps[j].0 != k
    ensures k in AssignAll(m, ps) <==> k in m
    ensures k in m ==> AssignAll(m, ps)[k] == m[k]
    decreases |ps|
  {
    if ps != [] {
      AssignAllOthers(m, ps[..|ps| - 1], k);
    }
  }

  /** The first assignment of a run can be made first and the rest applied after it. */
  lemma {:induction false} AssignAllCons<K, V>(m: map<K, V>, p: (K, V), ps: seq<(K, V)>)
    ensures AssignAll(m, [p] + ps) == AssignAll(m[p.0 := p.1], ps)
    decreases |ps|
  {
    if ps != [] {
      var all := [p] + ps;
      assert all[..|all| - 1] == [p] + ps[..|ps| - 1];
      AssignAllCons(m, p, ps[..|ps| - 1]);
    }
  }

  /** A dict whose keys are unique, as a sequence of entries in insertion order. */
  ghost predicate DistinctKeys<K, V>(d: seq<(K, V)>) {
    forall i, j | 0 <= i < j < |d| :: d[i].0 != d[j].0
  }

  /** `d.get(k)`. */
  function Get<K(==, !new), V>(d: seq<(K, V)>, k: K): (r: Option<V>)
    ensures r == None <==> forall i | 0 <= i < |d| :: d[i].0 != k
    ensures r.Some? ==> exists i | 0 <= i < |d| :: d[i] == (k, r.value)
  {
    if d == [] then None
    else if d[0].0 == k then Some(d[0].1)
    else
      var r := Get(d[1..], k);
      assert r.Some? ==> exists i | 1 <= i < |d| :: d[i] == (k, r.value) by {
        if r.Some? {
          var i :| 0 <= i < |d[1..]| && d[1..][i] == (k, r.value);
          assert d[i + 1] == (k, r.value);
        }
      }
      r
  }

  /** `d[k] = v`: an existing key keeps its position and takes the new value; a new key is appended. */
  function Put<K(==, !new), V>(d: seq<(K, V)>, k: K, v: V): (r: seq<(K, V)>)
    ensures |r| == if Get(d, k) == None then |d| + 1 else |d|
    ensures forall i | 0 <= i < |d| :: r[i].0 == d[i].0
  {
    if d == [] then [(k, v)]
    else if d[0].0 == k then [(k, v)] + d[1..]
    else [d[0]] + Put(d[1..], k, v)
  }

  /** After `d[k] = v`, `k` maps to `v` and every other key to what it mapped to before. */
  lemma {:induction false} PutGet<K(!new), V>(d: seq<(K, V)>, k: K, v: V)
    ensures Get(Put(d, k, v), k) == Some(v)
    ensures forall k' | k' != k :: Get(Put(d, k, v), k') == Get(d, k')
  {
    if d != [] && d[0].0 != k {
      PutGet(d[1..], k, v);
      assert Put(d, k, v)[1..] == Put(d[1..], k, v);
    }
  }

  /** A column `d[k] = v` appends holds the key `k`. */
  lemma {:induction false} PutAppends<K(!new), V>(d: seq<(K, V)>, k: K, v: V)
    ensures forall i | |d| <= i < |Put(d, k, v)| :: Put(d, k, v)[i].0 == k
  {
    if d != [] && d[0].0 != k {
      PutAppends(d[1..], k, v);
      assert Put(d, k, v)[1..] == Put(d[1..], k, v);
    }
  }

  /** In a dict, looking up the key of an entry finds that entry's value. */
  lemma {:induction false} GetAt<K(!new), V>(d: seq<(K, V)>, i: nat)
    requires DistinctKeys(d) && i < |d|
    ensures Get(d, d[i].0) == Some(d[i].1)
  {
    if i > 0 {
      assert d[0].0 != d[i].0;
      assert d[1..][i - 1] == d[i];
      GetAt(d[1..], i - 1);
    }
  }

  /** The entries after the first of a dict form a dict without the first key, and agree with it on every other key. */
  lemma DistinctTail<K(!new), V>(d: seq<(K, V)>)
    requires DistinctKeys(d) && d != []
    ensures DistinctKeys(d[1..]) && Get(d[1..], d[0].0).None?
    ensures forall k | k != d[0].0 :: Get(d[1..], k) == Get(d, k)
  {
    forall i | 0 <= i < |d[1..]| ensures d[1..][i].0 != d[0].0 {
      assert d[1..][i] == d[i + 1];
    }
  }

  /** `d[k] = v` keeps the keys of a dict unique. */
  lemma {:induction false} PutDistinct<K(!new), V>(d: seq<(K, V)>, k: K, v: V)
    requires DistinctKeys(d)
    ensures DistinctKeys(Put(d, k, v))
  {
    var r := Put(d, k, v);
    if d != [] && d[0].0 == k {
      assert r[1..] == d[1..];
    } else if d != [] {
      var t := Put(d[1..], k, v);
      assert r == [d[0]] + t;
      assert DistinctKeys(d[1..]);
      PutDistinct(d[1..], k, v);
      PutGet(d[1..], k, v);
      assert Get(d[1..], d[0].0) == None;
      assert Get(t, d[0].0) == None;
    }
  }
}
