/** The pandas table operations the merge and refine steps rely on, on tables
    modelled as sequences of rows: `pd.merge(..., how='left')` on a key,
    `drop_duplicates()` and `groupby` on a pair of coordinates. */
module Joins {
  import opened Common

  // ------------------------------------------------------------ left merge

  /** The rows of `right` whose key is `k`, in their original order. */
  function Matches<R(==,!new), K(==)>(right: seq<R>, rkey: R -> K, k: K): (ms: seq<R>)
    ensures |ms| <= |right|
    ensures forall i :: 0 <= i < |ms| ==> rkey(ms[i]) == k
    ensures forall x {:trigger x in ms} :: x in ms <==> x in right && rkey(x) == k
    decreases |right|
  {
    if right == [] then []
    else
      assert forall x :: x in right <==> x == right[0] || x in right[1..];
      if rkey(right[0]) == k then [right[0]] + Matches(right[1..], rkey, k)
      else Matches(right[1..], rkey, k)
  }

  /** Each right row with the key is matched as often as it occurs on the right. */
  lemma {:induction false} MatchesCount<R(!new), K>(right: seq<R>, rkey: R -> K, k: K)
    ensures forall x :: multiset(Matches(right, rkey, k))[x] == if rkey(x) == k then multiset(right)[x] else 0
    decreases |right|
  {
    if right != [] {
      var ms, rest := Matches(right, rkey, k), Matches(right[1..], rkey, k);
      MatchesCount(right[1..], rkey, k);
      assert multiset(right) == multiset([right[0]]) + multiset(right[1..]) by {
        assert right == [right[0]] + right[1..];
      }
      if rkey(right[0]) == k {
        assert ms == [right[0]] + rest;
        assert multiset(ms) == multiset([right[0]]) + multiset(rest);
      } else {
        assert ms == rest;
      }
      forall x ensures multiset(ms)[x] == if rkey(x) == k then multiset(right)[x] else 0 {
        assert multiset(rest)[x] == if rkey(x) == k then multiset(right[1..])[x] else 0;
      }
    }
  }

  /** A key no right row carries has no matches. */
  lemma {:induction false} MatchesNone<R(!new), K>(right: seq<R>, rkey: R -> K, k: K)
    requires forall x :: x in right ==> rkey(x) != k
    ensures Matches(right, rkey, k) == []
    decreases |right|
  {
    if right != [] {
      assert right[0] in right;
      assert forall x :: x in right[1..] ==> x in right;
      MatchesNone(right[1..], rkey, k);
    }
  }

  /** Matching keeps the right table's order: the matches of a concatenation
      are the matches of its first part followed by those of its second. */
  lemma {:induction false} MatchesAppend<R(!new), K>(a: seq<R>, b: seq<R>, rkey: R -> K, k: K)
    ensures Matches(a + b, rkey, k) == Matches(a, rkey, k) + Matches(b, rkey, k)
    decreases |a|
  {
    if a == [] {
      assert a + b == b;
    } else {
      assert (a + b)[0] == a[0];
      assert (a + b)[1..] == a[1..] + b;
      MatchesAppend(a[1..], b, rkey, k);
    }
  }

  /** The rows one left row contributes to a left merge: one per matching right
      row, in the right table's order, or the row alone with nulls when none matches. */
  function JoinRow<L, R(==,!new), K(==)>(l: L, right: seq<R>, lkey: L -> K, rkey: R -> K): (rows: seq<(L, Option<R>)>)
    ensures var ms := Matches(right, rkey, lkey(l));
      |rows| == (if ms == [] then 1 else |ms|)
      && (forall i :: 0 <= i < |rows| ==> rows[i].0 == l)
      && (ms == [] ==> rows[0].1 == None)
      && (forall i :: 0 <= i < |ms| ==> rows[i].1 == Some(ms[i]))
  {
    var ms := Matches(right, rkey, lkey(l));
    if ms == [] then [(l, None)] else seq(|ms|, i requires 0 <= i < |ms| => (l, Some(ms[i])))
  }

  /** `pd.merge(left, right, on=key, how='left')`: left rows in their order, each
      followed by its matches. */
  function LeftJoin<L, R(==,!new), K(==)>(left: seq<L>, right: seq<R>, lkey: L -> K, rkey: R -> K): (rows: seq<(L, Option<R>)>)
    ensures |rows| >= |left|
    decreases |left|
  {
    if left == [] then [] else JoinRow(left[0], right, lkey, rkey) + LeftJoin(left[1..], right, lkey, rkey)
  }

  /** Merging with an empty right table gives every left row once, with nulls. */
  lemma {:induction false} LeftJoinEmptyRight<L, R(!new), K>(left: seq<L>, lkey: L -> K, rkey: R -> K)
    ensures var rows := LeftJoin(left, [], lkey, rkey);
      |rows| == |left| && forall m :: 0 <= m < |rows| ==> rows[m] == (left[m], None)
    decreases |left|
  {
    if left != [] {
      LeftJoinEmptyRight(left[1..], lkey, rkey);
    }
  }

  /** The merge treats left rows independently and keeps their order. */
  lemma {:induction false} LeftJoinAppend<L, R(!new), K>(a: seq<L>, b: seq<L>, right: seq<R>, lkey: L -> K, rkey: R -> K)
    ensures LeftJoin(a + b, right, lkey, rkey) == LeftJoin(a, right, lkey, rkey) + LeftJoin(b, right, lkey, rkey)
    decreases |a|
  {
    if a == [] {
      assert a + b == b;
    } else {
      assert (a + b)[0] == a[0];
      assert (a + b)[1..] == a[1..] + b;
      LeftJoinAppend(a[1..], b, right, lkey, rkey);
    }
  }

  /** The block of the merge that comes from the left row at index `i`. */
  lemma {:induction false} LeftJoinBlock<L, R(!new), K>(left: seq<L>, i: nat, right: seq<R>, lkey: L -> K, rkey: R -> K)
    requires i < |left|
    ensures var before := |LeftJoin(left[..i], right, lkey, rkey)|;
      var block := JoinRow(left[i], right, lkey, rkey);
      var rows := LeftJoin(left, right, lkey, rkey);
      before + |block| <= |rows| && rows[before..before + |block|] == block
  {
    assert left == left[..i] + ([left[i]] + left[i + 1..]);
    LeftJoinAppend(left[..i], [left[i]] + left[i + 1..], right, lkey, rkey);
    assert ([left[i]] + left[i + 1..])[1..] == left[i + 1..];
  }

  /** Every left row survives the merge, with its matches or with nulls. */
  lemma {:induction false} LeftJoinKeepsLeftRows<L, R(!new), K>(left: seq<L>, right: seq<R>, lkey: L -> K, rkey: R -> K, i: nat)
    requires i < |left|
    ensures exists p :: 0 <= p < |LeftJoin(left, right, lkey, rkey)| && LeftJoin(left, right, lkey, rkey)[p].0 == left[i]
  {
    LeftJoinLeftAt(left, right, lkey, rkey, i, 0);
  }

  /** Position `m` of the block of left row `i` holds that left row. */
  lemma {:induction false} LeftJoinLeftAt<L, R(!new), K>(left: seq<L>, right: seq<R>, lkey: L -> K, rkey: R -> K, i: nat, m: nat)
    requires i < |left| && m < |JoinRow(left[i], right, lkey, rkey)|
    ensures var rows := LeftJoin(left, right, lkey, rkey);
      var p := |LeftJoin(left[..i], right, lkey, rkey)|;
      p + m < |rows| && rows[p + m].0 == left[i]
  {
    LeftJoinBlockAt(left, right, lkey, rkey, i, m);
  }

  /** The rows the left row at index `i` contributes start at position `p`:
      one per match, or one when nothing matches, each holding that left row. */
  lemma {:induction false} LeftJoinRowsOf<L, R(!new), K>(left: seq<L>, right: seq<R>, lkey: L -> K, rkey: R -> K, i: nat)
    requires i < |left|
    ensures var rows := LeftJoin(left, right, lkey, rkey);
      var ms := Matches(right, rkey, lkey(left[i]));
      var n := if ms == [] then 1 else |ms|;
      var p := |LeftJoin(left[..i], right, lkey, rkey)|;
      p + n <= |rows| && forall m :: p <= m < p + n ==> rows[m].0 == left[i]
  {
    var p := |LeftJoin(left[..i], right, lkey, rkey)|;
    var n := |JoinRow(left[i], right, lkey, rkey)|;
    LeftJoinLeftAt(left, right, lkey, rkey, i, n - 1);
    forall m | p <= m < p + n ensures LeftJoin(left, right, lkey, rkey)[m].0 == left[i] {
      LeftJoinLeftAt(left, right, lkey, rkey, i, m - p);
    }
  }


  /** Position `m` of the block of the left row at index `i`. */
  lemma {:induction false} LeftJoinBlockAt<L, R(!new), K>(left: seq<L>, right: seq<R>, lkey: L -> K, rkey: R -> K, i: nat, m: nat)
    requires i < |left| && m < |JoinRow(left[i], right, lkey, rkey)|
    ensures var rows := LeftJoin(left, right, lkey, rkey);
      var p := |LeftJoin(left[..i], right, lkey, rkey)|;
      p + m < |rows| && rows[p + m] == JoinRow(left[i], right, lkey, rkey)[m]
    decreases i
  {
    if i == 0 {
      LeftJoinFirstBlockAt(left, right, lkey, rkey, m);
    } else {
      LeftJoinPrefixStep(left, right, lkey, rkey, i);
      LeftJoinBlockAt(left[1..], right, lkey, rkey, i - 1, m);
      LeftJoinShift(left, right, lkey, rkey, |LeftJoin(left[1..][..i - 1], right, lkey, rkey)| + m);
      assert left[1..][i - 1] == left[i];
    }
  }

  /** The block of the first left row opens the merge. */
  lemma {:induction false} LeftJoinFirstBlockAt<L, R(!new), K>(left: seq<L>, right: seq<R>, lkey: L -> K, rkey: R -> K, m: nat)
    requires 0 < |left| && m < |JoinRow(left[0], right, lkey, rkey)|
    ensures var rows := LeftJoin(left, right, lkey, rkey);
      |LeftJoin(left[..0], right, lkey, rkey)| == 0 && m < |rows| && rows[m] == JoinRow(left[0], right, lkey, rkey)[m]
  {
    assert left[..0] == [];
  }

  /** Past the first block, the merge is the merge of the remaining left rows. */
  lemma {:induction false} LeftJoinShift<L, R(!new), K>(left: seq<L>, right: seq<R>, lkey: L -> K, rkey: R -> K, q: nat)
    requires 0 < |left| && q < |LeftJoin(left[1..], right, lkey, rkey)|
    ensures var rows := LeftJoin(left, right, lkey, rkey);
      var n := |JoinRow(left[0], right, lkey, rkey)|;
      n + q < |rows| && rows[n + q] == LeftJoin(left[1..], right, lkey, rkey)[q]
  {
  }

  /** The merge of a non-empty prefix starts with the block of its first row. */
  lemma {:induction false} LeftJoinPrefixStep<L, R(!new), K>(left: seq<L>, right: seq<R>, lkey: L -> K, rkey: R -> K, i: nat)
    requires 0 < i <= |left|
    ensures LeftJoin(left[..i], right, lkey, rkey)
      == JoinRow(left[0], right, lkey, rkey) + LeftJoin(left[1..][..i - 1], right, lkey, rkey)
  {
    assert left[..i][0] == left[0];
    assert left[..i][1..] == left[1..][..i - 1];
  }


  /** The `m`-th match of the left row at index `i` is paired with it at
      position `p + m`. */
  lemma {:induction false} LeftJoinRowAt<L, R(!new), K>(left: seq<L>, right: seq<R>, lkey: L -> K, rkey: R -> K, i: nat, m: nat)
    requires i < |left| && m < |Matches(right, rkey, lkey(left[i]))|
    ensures var rows := LeftJoin(left, right, lkey, rkey);
      var p := |LeftJoin(left[..i], right, lkey, rkey)|;
      p + m < |rows| && rows[p + m] == (left[i], Some(Matches(right, rkey, lkey(left[i]))[m]))
  {
    LeftJoinBlockAt(left, right, lkey, rkey, i, m);
  }

  /** A left row without matches is paired with null at position `p`. */
  lemma {:induction false} LeftJoinUnmatchedAt<L, R(!new), K>(left: seq<L>, right: seq<R>, lkey: L -> K, rkey: R -> K, i: nat)
    requires i < |left| && Matches(right, rkey, lkey(left[i])) == []
    ensures var rows := LeftJoin(left, right, lkey, rkey);
      var p := |LeftJoin(left[..i], right, lkey, rkey)|;
      p < |rows| && rows[p] == (left[i], None)
  {
    LeftJoinBlockAt(left, right, lkey, rkey, i, 0);
  }

  /** When every key occurs at most once on the right, the merge neither adds
      nor drops rows. */
  lemma {:induction false} LeftJoinSameLength<L, R(!new), K>(left: seq<L>, right: seq<R>, lkey: L -> K, rkey: R -> K)
    requires forall l :: l in left ==> |Matches(right, rkey, lkey(l))| <= 1
    ensures |LeftJoin(left, right, lkey, rkey)| == |left|
    decreases |left|
  {
    if left != [] {
      assert left[0] in left;
      assert forall l :: l in left[1..] ==> l in left;
      LeftJoinSameLength(left[1..], right, lkey, rkey);
    }
  }

  // ------------------------------------------------------- drop_duplicates

  predicate NoDuplicates<T(==,!new)>(s: seq<T>) {
    forall i, j :: 0 <= i < j < |s| ==> s[i] != s[j]
  }

  /** The index of the first occurrence of `x` in `s`. */
  function FirstIndex<T(==,!new)>(s: seq<T>, x: T): (k: nat)
    requires x in s
    ensures k < |s| && s[k] == x && x !in s[..k]
  {
    if s[0] == x then 0
    else
      var k := 1 + FirstIndex(s[1..], x);
      assert s[..k] == [s[0]] + s[1..][..k - 1];
      k
  }

  lemma FirstIndexUnique<T(!new)>(s: seq<T>, x: T, k: nat)
    requires k < |s| && s[k] == x && x !in s[..k]
    ensures FirstIndex(s, x) == k
  {
  }

  /** `drop_duplicates()`: the first occurrence of every row, in order. */
  function DropDuplicates<T(==,!new)>(s: seq<T>): (r: seq<T>)
    ensures forall x :: x in r <==> x in s
    ensures NoDuplicates(r)
    ensures forall i, j :: 0 <= i < j < |r| ==> FirstIndex(s, r[i]) < FirstIndex(s, r[j])
    decreases |s|
  {
    if s == [] then []
    else
      var init := s[..|s| - 1];
      var x := s[|s| - 1];
      var p := DropDuplicates(init);
      assert s == init + [x];
      forall y | y in init ensures FirstIndex(s, y) == FirstIndex(init, y) {
        var f := FirstIndex(init, y);
        assert s[..f] == init[..f];
        FirstIndexUnique(s, y, f);
      }
      if x in p then p
      else
        assert s[..|s| - 1] == init;
        FirstIndexUnique(s, x, |s| - 1);
        p + [x]
  }

  /** A table without duplicate rows is left as it is; in particular
      `drop_duplicates` is idempotent. */
  lemma {:induction false} DropDuplicatesIdentity<T(!new)>(s: seq<T>)
    requires NoDuplicates(s)
    ensures DropDuplicates(s) == s
    decreases |s|
  {
    if s != [] {
      var init := s[..|s| - 1];
      DropDuplicatesIdentity(init);
      assert s[|s| - 1] !in init;
      assert s == init + [s[|s| - 1]];
    }
  }

  lemma DropDuplicatesIdempotent<T(!new)>(s: seq<T>)
    ensures DropDuplicates(DropDuplicates(s)) == DropDuplicates(s)
  {
    DropDuplicatesIdentity(DropDuplicates(s));
  }

  // --------------------------------------------------- grouping by a pair

  /** A (latitude, longitude) group key. */
  type Key = (real, real)

  /** The lexicographic order `groupby` sorts its keys in. */
  predicate KeyBefore(a: Key, b: Key) {
    a.0 < b.0 || (a.0 == b.0 && a.1 < b.1)
  }

  predicate StrictlySorted(ks: seq<Key>) {
    forall i, j :: 0 <= i < j < |ks| ==> KeyBefore(ks[i], ks[j])
  }

  function InsertKey(k: Key, ks: seq<Key>): (r: seq<Key>)
    requires StrictlySorted(ks)
    ensures StrictlySorted(r)
    ensures forall x :: x in r <==> x == k || x in ks
  {
    if ks == [] then [k]
    else if k == ks[0] then ks
    else if KeyBefore(k, ks[0]) then [k] + ks
    else
      var rest := InsertKey(k, ks[1..]);
      assert forall j :: 0 <= j < |rest| ==> rest[j] in rest;
      [ks[0]] + rest
  }

  /** The distinct keys of a `groupby`, in ascending order. */
  function SortedKeys(ks: seq<Key>): (r: seq<Key>)
    ensures StrictlySorted(r)
    ensures forall x :: x in r <==> x in ks
    decreases |ks|
  {
    if ks == [] then [] else InsertKey(ks[|ks| - 1], SortedKeys(ks[..|ks| - 1]))
  }

  /** Sorted keys are distinct keys: each group appears once. */
  lemma SortedKeysDistinct(ks: seq<Key>)
    ensures NoDuplicates(SortedKeys(ks))
  {
  }
}
