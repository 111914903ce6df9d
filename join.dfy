/**
 * pandas' `left.merge(right, left_on=..., right_on=..., validate="one_to_one")` with the
 * default inner join: a repeated key on either side is a `MergeError`; otherwise every
 * left row whose key some right row shares is paired with that row, in left order, and
 * rows of either side without a partner are dropped.
 */
module Join {
  import opened Wrappers

  /** No two rows share a key. */
  ghost predicate UniqueKeys<T>(rows: seq<T>, key: T -> string) {
    forall i, j | 0 <= i < j < |rows| :: key(rows[i]) != key(rows[j])
  }

  /** The first row with key `k`, if any. */
  function Partner<T>(rows: seq<T>, key: T -> string, k: string): (r: Option<T>)
    ensures r.None? <==> forall j | 0 <= j < |rows| :: key(rows[j]) != k
    ensures r.Some? ==> exists j | 0 <= j < |rows| :: rows[j] == r.value && key(rows[j]) == k
  {
    if rows == [] then None
    else if key(rows[0]) == k then Some(rows[0])
    else
      var r := Partner(rows[1..], key, k);
      assert r.Some? ==> exists j | 0 <= j < |rows| :: rows[j] == r.value && key(rows[j]) == k by {
        if r.Some? {
          var j :| 0 <= j < |rows[1..]| && rows[1..][j] == r.value && key(rows[1..][j]) == k;
          assert rows[j + 1] == r.value;
        }
      }
      r
  }

  /** When keys are unique, the row with a key is the partner of that key. */
  lemma {:induction false} PartnerUnique<T>(rows: seq<T>, key: T -> string, j: nat)
    requires UniqueKeys(rows, key) && j < |rows|
    ensures Partner(rows, key, key(rows[j])) == Some(rows[j])
  {
    if j > 0 {
      assert key(rows[0]) != key(rows[j]);
      assert rows[1..][j - 1] == rows[j];
      PartnerUnique(rows[1..], key, j - 1);
    }
  }

  /** The inner join: each left row with a partner on the right, paired with it, in left order. */
  function InnerJoin<L, R>(left: seq<L>, right: seq<R>, lk: L -> string, rk: R -> string): (r: seq<(L, R)>)
    ensures |r| <= |left|
    ensures forall n | 0 <= n < |r| :: r[n].0 in left && r[n].1 in right && lk(r[n].0) == rk(r[n].1)
  {
    if left == [] then []
    else
      var rest := InnerJoin(left[1..], right, lk, rk);
      match Partner(right, rk, lk(left[0]))
      case None => rest
      case Some(y) =>
        assert forall n | 0 <= n < |rest| :: rest[n].0 in left by {
          forall n | 0 <= n < |rest| ensures rest[n].0 in left {
            assert rest[n].0 in left[1..];
          }
        }
        [(left[0], y)] + rest
  }

  /** `validate="one_to_one"`: a repeated key on either side fails the merge. */
  function MergeOneToOne<L(!new), R(!new)>(left: seq<L>, right: seq<R>, lk: L -> string, rk: R -> string): (r: Result<seq<(L, R)>>)
    ensures r.Err? <==> !UniqueKeys(left, lk) || !UniqueKeys(right, rk)
    ensures r.Err? ==> r.error == MergeError
    ensures r.Ok? ==> forall p: (L, R) :: p in r.value <==> p.0 in left && p.1 in right && lk(p.0) == rk(p.1)
  {
    if (exists i, j | 0 <= i < j < |left| :: lk(left[i]) == lk(left[j]))
      || (exists i, j | 0 <= i < j < |right| :: rk(right[i]) == rk(right[j]))
    then Err(MergeError)
    else
      assert forall p: (L, R) :: p in InnerJoin(left, right, lk, rk) <==> p.0 in left && p.1 in right && lk(p.0) == rk(p.1) by {
        forall p: (L, R) ensures p in InnerJoin(left, right, lk, rk) <==> p.0 in left && p.1 in right && lk(p.0) == rk(p.1) {
          InnerJoinMembers(left, right, lk, rk, p);
        }
      }
      Ok(InnerJoin(left, right, lk, rk))
  }

  /** When the right keys are unique, the join holds exactly the pairs of a left and a right row with equal keys. */
  lemma InnerJoinMembers<L, R>(left: seq<L>, right: seq<R>, lk: L -> string, rk: R -> string, p: (L, R))
    requires UniqueKeys(right, rk)
    ensures p in InnerJoin(left, right, lk, rk) <==> p.0 in left && p.1 in right && lk(p.0) == rk(p.1)
  {
    if p.0 in left && p.1 in right && lk(p.0) == rk(p.1) {
      var i :| 0 <= i < |left| && left[i] == p.0;
      var j :| 0 <= j < |right| && right[j] == p.1;
      JoinKeepsMatched(left, right, lk, rk, i, j);
    }
  }

  /** Every left row with a partner on the right is in the join, paired with that partner. */
  lemma {:induction false} JoinKeepsMatched<L, R>(left: seq<L>, right: seq<R>, lk: L -> string, rk: R -> string, i: nat, j: nat)
    requires UniqueKeys(right, rk)
    requires i < |left| && j < |right| && lk(left[i]) == rk(right[j])
    ensures (left[i], right[j]) in InnerJoin(left, right, lk, rk)
  {
    PartnerUnique(right, rk, j);
    if i > 0 {
      assert left[1..][i - 1] == left[i];
      JoinKeepsMatched(left[1..], right, lk, rk, i - 1, j);
    }
  }

  /** Every left key occurs in the join at most once: the merge never duplicates a row. */
  lemma {:induction false} JoinKeysUnique<L, R>(left: seq<L>, right: seq<R>, lk: L -> string, rk: R -> string)
    requires UniqueKeys(left, lk)
    ensures UniqueKeys(InnerJoin(left, right, lk, rk), (p: (L, R)) => lk(p.0))
  {
    if left != [] {
      var r := InnerJoin(left, right, lk, rk);
      var rest := InnerJoin(left[1..], right, lk, rk);
      assert UniqueKeys(left[1..], lk);
      JoinKeysUnique(left[1..], right, lk, rk);
      if r != rest {
        assert r == [r[0]] + rest && r[0].0 == left[0];
        forall b | 0 <= b < |rest| ensures lk(rest[b].0) != lk(left[0]) {
          var x := rest[b].0;
          assert x in left[1..];
          var i :| 0 <= i < |left[1..]| && left[1..][i] == x;
          assert left[i + 1] == x;
          assert lk(left[0]) != lk(left[i + 1]);
        }
        forall a, b | 0 <= a < b < |r| ensures lk(r[a].0) != lk(r[b].0) {
          assert r[b] == rest[b - 1];
          if a > 0 {
            assert r[a] == rest[a - 1];
          }
        }
      }
    }
  }

  /** Two tables whose rows read the same keys, row for row, have unique keys together. */
  lemma UniqueProject<R, S>(right: seq<R>, wide: seq<S>, rk: R -> string, sk: S -> string)
    requires |wide| == |right|
    requires forall j | 0 <= j < |right| :: sk(wide[j]) == rk(right[j])
    ensures UniqueKeys(wide, sk) <==> UniqueKeys(right, rk)
  {
  }

  /**
   * Joining against a table that extends each right row with more columns finds the same
   * partners: `g` recovers the original row and `sk` reads the same key.
   */
  lemma {:induction false} PartnerProject<R, S>(right: seq<R>, wide: seq<S>, g: S -> R, rk: R -> string, sk: S -> string, k: string)
    requires |wide| == |right|
    requires forall j | 0 <= j < |right| :: g(wide[j]) == right[j] && sk(wide[j]) == rk(right[j])
    ensures Partner(wide, sk, k).Some? ==> Partner(right, rk, k) == Some(g(Partner(wide, sk, k).value))
  {
    if wide != [] && sk(wide[0]) != k {
      PartnerProject(right[1..], wide[1..], g, rk, sk, k);
    }
  }

  /** The join with the wider right table is the join with the original, row for row. */
  lemma {:induction false} JoinProject<L, R, S>(left: seq<L>, right: seq<R>, wide: seq<S>, g: S -> R, lk: L -> string, rk: R -> string, sk: S -> string)
    requires |wide| == |right|
    requires forall j | 0 <= j < |right| :: g(wide[j]) == right[j] && sk(wide[j]) == rk(right[j])
    ensures var a := InnerJoin(left, wide, lk, sk); var b := InnerJoin(left, right, lk, rk);
      |a| == |b| && forall n | 0 <= n < |a| :: a[n].0 == b[n].0 && g(a[n].1) == b[n].1
  {
    if left != [] {
      var k := lk(left[0]);
      var a := InnerJoin(left[1..], wide, lk, sk);
      var b := InnerJoin(left[1..], right, lk, rk);
      JoinProject(left[1..], right, wide, g, lk, rk, sk);
      PartnerProject(right, wide, g, rk, sk, k);
      match Partner(wide, sk, k) {
        case None =>
          assert Partner(right, rk, k).None?;
          assert InnerJoin(left, wide, lk, sk) == a && InnerJoin(left, right, lk, rk) == b;
        case Some(y) =>
          assert InnerJoin(left, wide, lk, sk) == [(left[0], y)] + a;
          assert InnerJoin(left, right, lk, rk) == [(left[0], g(y))] + b;
      }
    }
  }

  /** The one-to-one merge with the wider right table succeeds exactly when the original does, with the same pairs. */
  lemma MergeProject<L(!new), R(!new), S(!new)>(left: seq<L>, right: seq<R>, wide: seq<S>, g: S -> R, lk: L -> string, rk: R -> string, sk: S -> string)
    requires |wide| == |right|
    requires forall j | 0 <= j < |right| :: g(wide[j]) == right[j] && sk(wide[j]) == rk(right[j])
    ensures var a := MergeOneToOne(left, wide, lk, sk); var b := MergeOneToOne(left, right, lk, rk);
      (a.Ok? <==> b.Ok?) && (a.Ok? ==> |a.value| == |b.value| && forall n | 0 <= n < |a.value| ::
        a.value[n].0 == b.value[n].0 && g(a.value[n].1) == b.value[n].1)
  {
    UniqueProject(right, wide, rk, sk);
    JoinProject(left, right, wide, g, lk, rk, sk);
  }
}
