/**
 * `Mapping<L, R>`: a two-way map kept as two one-way maps, `lr` and `rl`. Inserting a pair
 * writes both directions and removes nothing, so a rebound key leaves its old partner's
 * entry behind.
 */
module Mapping {
  import opened Wrappers

  /** The two maps' contents. */
  datatype Table<L, R> = Table(lr: map<L, R>, rl: map<R, L>) {

    /** `by_left`: the right value stored under `k`, if any. */
    function ByLeft(k: L): Option<R> {
      if k in lr then Some(lr[k]) else None
    }

    /** `by_right`: the left value stored under `k`, if any. */
    function ByRight(k: R): Option<L> {
      if k in rl then Some(rl[k]) else None
    }

    /** `insert`: bind `left` to `right` in `lr` and `right` to `left` in `rl`. */
    function Insert(left: L, right: R): Table<L, R> {
      Table(lr[left := right], rl[right := left])
    }
  }

  /** `Mapping::new()`. */
  function Empty<L, R>(): Table<L, R> {
    Table(map[], map[])
  }

  /** The table after inserting `pairs` in order into a new mapping. */
  function InsertAll<L, R>(pairs: seq<(L, R)>): Table<L, R> {
    if pairs == [] then Empty()
    else InsertAll(pairs[..|pairs| - 1]).Insert(pairs[|pairs| - 1].0, pairs[|pairs| - 1].1)
  }

  /** A new mapping answers `None` to every lookup in either direction. */
  lemma NewAnswersNone<L, R>(l: L, r: R)
    ensures Empty<L, R>().ByLeft(l) == None && Empty<L, R>().ByRight(r) == None
  {
  }

  /** After `insert(l, r)`, `l` finds `r` and `r` finds `l`. */
  lemma InsertThenLookup<L, R>(t: Table<L, R>, l: L, r: R)
    ensures t.Insert(l, r).ByLeft(l) == Some(r) && t.Insert(l, r).ByRight(r) == Some(l)
  {
  }

  /** `insert(l, r)` leaves every other left key's and every other right key's answer as it was. */
  lemma InsertLeavesOthers<L, R>(t: Table<L, R>, l: L, r: R, l': L, r': R)
    ensures l' != l ==> t.Insert(l, r).ByLeft(l') == t.ByLeft(l')
    ensures r' != r ==> t.Insert(l, r).ByRight(r') == t.ByRight(r')
  {
  }

  /**
   * Stale entries survive: after `insert(l, r1)` then `insert(l, r2)`, `l` finds `r2`, yet `r1`
   * still finds `l` (the entry is stale when `r1 != r2`).
   */
  lemma StaleEntrySurvives<L, R>(t: Table<L, R>, l: L, r1: R, r2: R)
    ensures t.Insert(l, r1).Insert(l, r2).ByLeft(l) == Some(r2)
    ensures t.Insert(l, r1).Insert(l, r2).ByRight(r1) == Some(l)
  {
  }

  /** `by_left` and `by_right` undo each other on every pair they answer. */
  ghost predicate Inverse<L, R>(t: Table<L, R>) {
    && (forall l :: l in t.lr ==> t.lr[l] in t.rl && t.rl[t.lr[l]] == l)
    && (forall r :: r in t.rl ==> t.rl[r] in t.lr && t.lr[t.rl[r]] == r)
  }

  /** No left value and no right value occurs in two of the pairs. */
  ghost predicate Injective<L, R>(pairs: seq<(L, R)>) {
    forall i, j :: 0 <= i < j < |pairs| ==> pairs[i].0 != pairs[j].0 && pairs[i].1 != pairs[j].1
  }

  /** The left values of `pairs`, in order. */
  function Lefts<L, R>(pairs: seq<(L, R)>): (ls: seq<L>)
    ensures |ls| == |pairs| && forall i :: 0 <= i < |pairs| ==> ls[i] == pairs[i].0
  {
    if pairs == [] then [] else Lefts(pairs[..|pairs| - 1]) + [pairs[|pairs| - 1].0]
  }

  /** The right values of `pairs`, in order. */
  function Rights<L, R>(pairs: seq<(L, R)>): (rs: seq<R>)
    ensures |rs| == |pairs| && forall i :: 0 <= i < |pairs| ==> rs[i] == pairs[i].1
  {
    if pairs == [] then [] else Rights(pairs[..|pairs| - 1]) + [pairs[|pairs| - 1].1]
  }

  /** An insertion sequence stores only its own lefts in `lr` and its own rights in `rl`. */
  lemma {:induction false} InsertAllKeys<L, R>(pairs: seq<(L, R)>)
    ensures forall l :: l in InsertAll(pairs).lr ==> l in Lefts(pairs)
    ensures forall r :: r in InsertAll(pairs).rl ==> r in Rights(pairs)
  {
    if pairs != [] {
      var init := pairs[..|pairs| - 1];
      InsertAllKeys(init);
      assert Lefts(pairs) == Lefts(init) + [pairs[|pairs| - 1].0];
      assert Rights(pairs) == Rights(init) + [pairs[|pairs| - 1].1];
    }
  }

  /** In an injective sequence the last pair's values occur in no earlier pair. */
  lemma LastIsNew<L, R>(pairs: seq<(L, R)>)
    requires Injective(pairs) && pairs != []
    ensures pairs[|pairs| - 1].0 !in Lefts(pairs[..|pairs| - 1])
    ensures pairs[|pairs| - 1].1 !in Rights(pairs[..|pairs| - 1])
  {
    var init := pairs[..|pairs| - 1];
    forall i | 0 <= i < |init|
      ensures Lefts(init)[i] != pairs[|pairs| - 1].0 && Rights(init)[i] != pairs[|pairs| - 1].1
    {
      assert init[i] == pairs[i];
    }
  }

  /** When every left and every right is inserted at most once, the two lookups are mutual inverses. */
  lemma {:induction false} InjectiveInsertsAreInverse<L, R>(pairs: seq<(L, R)>)
    requires Injective(pairs)
    ensures Inverse(InsertAll(pairs))
  {
    if pairs != [] {
      var init := pairs[..|pairs| - 1];
      assert Injective(init);
      InjectiveInsertsAreInverse(init);
      InsertAllKeys(init);
      LastIsNew(pairs);
    }
  }

  /** The mapping object: its two maps, updated in place by `insert`. */
  class Mapping<L(==), R(==)> {
    var lr: map<L, R>
    var rl: map<R, L>

    function Contents(): Table<L, R>
      reads this
    {
      Table(lr, rl)
    }

    constructor ()
      ensures Contents() == Empty()
    {
      lr := map[];
      rl := map[];
    }

    method ByLeft(k: L) returns (r: Option<R>)
      ensures r == Contents().ByLeft(k)
    {
      if k in lr {
        r := Some(lr[k]);
      } else {
        r := None;
      }
    }

    method ByRight(k: R) returns (l: Option<L>)
      ensures l == Contents().ByRight(k)
    {
      if k in rl {
        l := Some(rl[k]);
      } else {
        l := None;
      }
    }

    method Insert(left: L, right: R)
      modifies this
      ensures Contents() == old(Contents()).Insert(left, right)
    {
      lr := lr[left := right];
      rl := rl[right := left];
    }
  }
}
