/**
 * Order restoration in predict: every row carries its position as an
 * `__ordering` tag, per-leaf results are concatenated into a table of
 * (tag, value) pairs, and sorting that table by tag puts the values back in
 * input order.
 */
module Ordering {

  /** No tag occurs twice in the table. */
  ghost predicate DistinctTags<Y>(table: seq<(nat, Y)>)
  {
    forall a, b :: 0 <= a < b < |table| ==> table[a].0 != table[b].0
  }

  /** Some entry of the table carries `tag`. */
  ghost predicate HasTag<Y>(table: seq<(nat, Y)>, tag: nat)
  {
    exists k :: 0 <= k < |table| && table[k].0 == tag
  }

  /** The tags of the table are exactly 0..n-1, each once. */
  ghost predicate TagsArePositions<Y>(table: seq<(nat, Y)>, n: nat)
  {
    && DistinctTags(table)
    && (forall k :: 0 <= k < |table| ==> table[k].0 < n)
    && (forall i :: 0 <= i < n ==> HasTag(table, i))
  }

  /** The values of `ys` tagged with their positions, which is a table sorted by tag. */
  function Tagged<Y>(ys: seq<Y>): (t: seq<(nat, Y)>)
    ensures |t| == |ys|
    ensures forall a, b :: 0 <= a < b < |t| ==> t[a].0 < t[b].0
  {
    seq(|ys|, i requires 0 <= i < |ys| => (i as nat, ys[i]))
  }

  /** The value of the first entry tagged `tag`. */
  function ValueAt<Y>(table: seq<(nat, Y)>, tag: nat): (v: Y)
    requires HasTag(table, tag)
    ensures (tag, v) in table
  {
    if table[0].0 == tag then table[0].1
    else
      assert HasTag(table[1..], tag) by {
        var k :| 0 <= k < |table| && table[k].0 == tag;
        assert table[1..][k - 1] == table[k];
      }
      ValueAt(table[1..], tag)
  }

  /**
   * `sort_values('__ordering')` followed by taking the value column: the
   * result, tagged with its positions, is a permutation of the table, so it
   * is the table sorted by tag.
   */
  function Reorder<Y>(table: seq<(nat, Y)>, n: nat): (ys: seq<Y>)
    requires TagsArePositions(table, n)
    ensures |ys| == n
    ensures forall i :: 0 <= i < n ==> (i, ys[i]) in table
    ensures multiset(Tagged(ys)) == multiset(table)
  {
    var ys := seq(n, i requires 0 <= i < n => ValueAt(table, i));
    ReorderIsPermutation(table, n, ys);
    ys
  }

  lemma ReorderIsPermutation<Y>(table: seq<(nat, Y)>, n: nat, ys: seq<Y>)
    requires TagsArePositions(table, n)
    requires |ys| == n
    requires forall i :: 0 <= i < n ==> (i, ys[i]) in table
    ensures multiset(Tagged(ys)) == multiset(table)
  {
    var t := Tagged(ys);
    forall x | x in table ensures x in t {
      var k :| 0 <= k < |table| && table[k] == x;
      var j :| 0 <= j < |table| && table[j] == (x.0, ys[x.0]);
      assert t[x.0] == (x.0, ys[x.0]);
    }
    forall x | x in t ensures x in table {
      var i :| 0 <= i < |t| && t[i] == x;
    }
    SameElementsSameMultiset(t, table);
  }

  /** No element occurs twice in the sequence. */
  ghost predicate NoDuplicates<T>(s: seq<T>)
  {
    forall a, b :: 0 <= a < b < |s| ==> s[a] != s[b]
  }

  lemma {:induction false} CountInDistinct<T>(s: seq<T>, x: T)
    requires NoDuplicates(s)
    ensures multiset(s)[x] == if x in s then 1 else 0
  {
    if |s| > 0 {
      assert s == [s[0]] + s[1..];
      CountInDistinct(s[1..], x);
    }
  }

  lemma SameElementsSameMultiset<T>(a: seq<T>, b: seq<T>)
    requires NoDuplicates(a) && NoDuplicates(b)
    requires forall x :: x in a <==> x in b
    ensures multiset(a) == multiset(b)
  {
    forall x ensures multiset(a)[x] == multiset(b)[x] {
      CountInDistinct(a, x);
      CountInDistinct(b, x);
    }
  }

  /**
   * The order in which the per-leaf chunks were concatenated does not matter:
   * any two tables holding the same entries restore to the same output.
   */
  lemma ReorderIgnoresConcatOrder<Y>(t1: seq<(nat, Y)>, t2: seq<(nat, Y)>, n: nat)
    requires TagsArePositions(t1, n) && TagsArePositions(t2, n)
    requires multiset(t1) == multiset(t2)
    ensures Reorder(t1, n) == Reorder(t2, n)
  {
    var r1, r2 := Reorder(t1, n), Reorder(t2, n);
    forall i | 0 <= i < n ensures r1[i] == r2[i] {
      assert (i, r1[i]) in multiset(Tagged(r1));
      assert (i, r2[i]) in multiset(Tagged(r2));
      assert (i, r1[i]) in t2;
      assert (i, r2[i]) in t2;
      var a :| 0 <= a < |t2| && t2[a] == (i, r1[i]);
      var b :| 0 <= b < |t2| && t2[b] == (i, r2[i]);
      assert a == b;
    }
  }
}
