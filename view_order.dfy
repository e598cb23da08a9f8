/**
 * The order in which the visualiser lists a step's variables: the
 * `variableOrder` state the step effect extends, the `sortedKeys` comparator
 * that applies it, and the drag-and-drop handler that rearranges it.
 */
module VariableOrder {
  import opened Common

  /** The keys of `current` that `prev` does not hold yet, in `current` order. */
  function NewKeys(current: seq<string>, prev: seq<string>): (r: seq<string>)
    ensures forall k :: k in r <==> k in current && k !in prev
    ensures |r| <= |current|
  {
    if |current| == 0 then []
    else (if current[0] !in prev then [current[0]] else []) + NewKeys(current[1..], prev)
  }

  /** The step effect: `[...prev, ...currentKeys.filter(k => !prev.includes(k))]`. */
  function MergeOrder(prev: seq<string>, current: seq<string>): (r: seq<string>)
    ensures prev <= r
    ensures forall k :: k in r <==> k in prev || k in current
  {
    prev + NewKeys(current, prev)
  }

  lemma {:induction false} NewKeysDistinct(current: seq<string>, prev: seq<string>)
    requires Distinct(current)
    ensures Distinct(NewKeys(current, prev))
  {
    if |current| > 0 {
      assert Distinct(current[1..]) by {
        forall i, j | 0 <= i < j < |current| - 1 ensures current[1..][i] != current[1..][j] {
          assert current[i + 1] != current[j + 1];
        }
      }
      NewKeysDistinct(current[1..], prev);
      var rest := NewKeys(current[1..], prev);
      assert current[0] !in current[1..] by {
        forall j | 0 <= j < |current| - 1 ensures current[1..][j] != current[0] {
          assert current[j + 1] != current[0];
        }
      }
      assert current[0] !in rest;
    }
  }

  /**
   * The merge keeps the previous order as a prefix, holds every key of the step
   * and nothing else new, and never introduces a duplicate.
   */
  lemma MergeOrderProperties(prev: seq<string>, current: seq<string>)
    requires Distinct(prev) && Distinct(current)
    ensures var r := MergeOrder(prev, current);
            && r[..|prev|] == prev
            && (forall k :: k in r <==> k in prev || k in current)
            && Distinct(r)
  {
    var added := NewKeys(current, prev);
    NewKeysDistinct(current, prev);
    var r := prev + added;
    forall i, j | 0 <= i < j < |r| ensures r[i] != r[j] {
      if j >= |prev| && i < |prev| {
        assert r[j] in added && r[i] in prev;
      } else if i >= |prev| {
        assert r[i] == added[i - |prev|] && r[j] == added[j - |prev|];
      }
    }
  }

  /** Visiting the same step again changes nothing. */
  lemma MergeOrderIdempotent(prev: seq<string>, current: seq<string>)
    ensures MergeOrder(MergeOrder(prev, current), current) == MergeOrder(prev, current)
  {
    var r := MergeOrder(prev, current);
    NewKeysNone(current, r);
  }

  lemma {:induction false} NewKeysNone(current: seq<string>, prev: seq<string>)
    requires forall k :: k in current ==> k in prev
    ensures NewKeys(current, prev) == []
  {
    if |current| > 0 {
      NewKeysNone(current[1..], prev);
    }
  }

  // ---------------------------------------------------------------------------
  // sortedKeys

  /**
   * Where the comparator puts a key: its index in `variableOrder`, and past
   * every known key when it is absent. The comparator returns the sign of the
   * difference of the two ranks (0 for two absent keys).
   */
  function Rank(order: seq<string>, k: string): (r: nat)
    ensures r <= |order|
    ensures r == |order| <==> k !in order
  {
    if k in order then IndexOf(order, k) else |order|
  }

  predicate SortedByRank(order: seq<string>, s: seq<string>) {
    forall i, j :: 0 <= i < j < |s| ==> Rank(order, s[i]) <= Rank(order, s[j])
  }

  /** Insert `x` after every element ranked no later than it, so equal ranks keep their input order. */
  function InsertByRank(order: seq<string>, x: string, s: seq<string>): (r: seq<string>)
    ensures multiset(r) == multiset(s) + multiset{x}
  {
    if |s| == 0 then [x]
    else if Rank(order, s[|s| - 1]) <= Rank(order, x) then s + [x]
    else
      assert s == s[..|s| - 1] + [s[|s| - 1]];
      InsertByRank(order, x, s[..|s| - 1]) + [s[|s| - 1]]
  }

  /** Every element of `InsertByRank(order, x, s)` is `x` or an element of `s`. */
  lemma InsertByRankElements(order: seq<string>, x: string, s: seq<string>, k: string)
    requires k in InsertByRank(order, x, s)
    ensures k == x || k in s
  {
    assert k in multiset(InsertByRank(order, x, s));
  }

  lemma {:induction false} InsertByRankSorted(order: seq<string>, x: string, s: seq<string>)
    requires SortedByRank(order, s)
    ensures SortedByRank(order, InsertByRank(order, x, s))
    decreases |s|
  {
    if |s| > 0 && Rank(order, s[|s| - 1]) > Rank(order, x) {
      var last := s[|s| - 1];
      var init := s[..|s| - 1];
      assert SortedByRank(order, init) by {
        forall i, j | 0 <= i < j < |init| ensures Rank(order, init[i]) <= Rank(order, init[j]) {
          assert init[i] == s[i] && init[j] == s[j];
        }
      }
      InsertByRankSorted(order, x, init);
      var mid := InsertByRank(order, x, init);
      var r := mid + [last];
      forall i, j | 0 <= i < j < |r| ensures Rank(order, r[i]) <= Rank(order, r[j]) {
        if j == |r| - 1 {
          assert r[i] in mid;
          InsertByRankElements(order, x, init, r[i]);
          if r[i] != x {
            var m :| 0 <= m < |init| && init[m] == r[i];
            assert s[m] == r[i];
          }
        } else {
          assert r[i] == mid[i] && r[j] == mid[j];
        }
      }
    }
  }

  /** `Object.keys(step.variables).sort(comparator)`: a stable sort by rank. */
  function SortedKeys(order: seq<string>, keys: seq<string>): (r: seq<string>)
    ensures multiset(r) == multiset(keys)
    ensures SortedByRank(order, r)
  {
    if |keys| == 0 then []
    else
      assert keys == keys[..|keys| - 1] + [keys[|keys| - 1]];
      InsertByRankSorted(order, keys[|keys| - 1], SortedKeys(order, keys[..|keys| - 1]));
      InsertByRank(order, keys[|keys| - 1], SortedKeys(order, keys[..|keys| - 1]))
  }

  /** The keys of rank `rank`, in sequence order. */
  function OfRank(order: seq<string>, s: seq<string>, rank: nat): seq<string> {
    if |s| == 0 then []
    else OfRank(order, s[..|s| - 1], rank) + if Rank(order, s[|s| - 1]) == rank then [s[|s| - 1]] else []
  }

  lemma {:induction false} OfRankAppend(order: seq<string>, a: seq<string>, b: seq<string>, rank: nat)
    ensures OfRank(order, a + b, rank) == OfRank(order, a, rank) + OfRank(order, b, rank)
    decreases |b|
  {
    if |b| > 0 {
      assert (a + b)[..|a + b| - 1] == a + b[..|b| - 1];
      OfRankAppend(order, a, b[..|b| - 1], rank);
    } else {
      assert a + b == a;
    }
  }

  lemma {:induction false} InsertByRankStable(order: seq<string>, x: string, s: seq<string>, rank: nat)
    ensures OfRank(order, InsertByRank(order, x, s), rank) ==
            OfRank(order, s, rank) + if Rank(order, x) == rank then [x] else []
    decreases |s|
  {
    OfRankSingle(order, x, rank);
    if |s| > 0 {
      var last := s[|s| - 1];
      var init := s[..|s| - 1];
      if Rank(order, last) <= Rank(order, x) {
        OfRankAppend(order, s, [x], rank);
      } else {
        InsertByRankStable(order, x, init, rank);
        InsertMovesPastLast(order, x, s, rank);
      }
    }
  }

  /** The ranks of a one-element sequence. */
  lemma OfRankSingle(order: seq<string>, x: string, rank: nat)
    ensures OfRank(order, [x], rank) == if Rank(order, x) == rank then [x] else []
  {
    assert [x][..0] == [];
  }

  /** Inserting before the last element keeps that element last among its rank. */
  lemma InsertMovesPastLast(order: seq<string>, x: string, s: seq<string>, rank: nat)
    requires |s| > 0 && Rank(order, s[|s| - 1]) > Rank(order, x)
    requires OfRank(order, InsertByRank(order, x, s[..|s| - 1]), rank) ==
             OfRank(order, s[..|s| - 1], rank) + if Rank(order, x) == rank then [x] else []
    ensures OfRank(order, InsertByRank(order, x, s), rank) ==
            OfRank(order, s, rank) + if Rank(order, x) == rank then [x] else []
  {
    var last := s[|s| - 1];
    var init := s[..|s| - 1];
    assert InsertByRank(order, x, s) == InsertByRank(order, x, init) + [last];
    OfRankAppend(order, InsertByRank(order, x, init), [last], rank);
    OfRankSingle(order, last, rank);
    var xs := if Rank(order, x) == rank then [x] else [];
    var ls := if Rank(order, last) == rank then [last] else [];
    var a := OfRank(order, init, rank);
    assert OfRank(order, InsertByRank(order, x, s), rank) == a + xs + ls;
    assert OfRank(order, s, rank) + xs == a + ls + xs;
    SwapEmpty(a, xs, ls);
  }

  /** Two sequences of which one is empty can be appended in either order. */
  lemma SwapEmpty(a: seq<string>, u: seq<string>, v: seq<string>)
    requires u == [] || v == []
    ensures a + u + v == a + v + u
  {
    if u == [] {
      assert a + u == a && a + v + u == a + v;
    } else {
      assert a + v == a && a + u + v == a + u;
    }
  }

  /**
   * The sort is stable: keys of equal rank, in particular all keys missing from
   * `variableOrder`, keep their order from `Object.keys`.
   */
  lemma {:induction false} SortedKeysStable(order: seq<string>, keys: seq<string>, rank: nat)
    ensures OfRank(order, SortedKeys(order, keys), rank) == OfRank(order, keys, rank)
    decreases |keys|
  {
    if |keys| > 0 {
      var init := keys[..|keys| - 1];
      SortedKeysStable(order, init, rank);
      InsertByRankStable(order, keys[|keys| - 1], SortedKeys(order, init), rank);
    }
  }

  /**
   * What `sortedKeys` promises: the same keys, every key known to
   * `variableOrder` before every unknown one, known keys in `variableOrder`
   * order, unknown ones in their original order.
   */
  lemma SortedKeysOrder(order: seq<string>, keys: seq<string>)
    ensures var r := SortedKeys(order, keys);
            && multiset(r) == multiset(keys)
            && (forall i, j :: 0 <= i < |r| && 0 <= j < |r| && r[i] in order && r[j] !in order ==> i < j)
            && (forall i, j :: 0 <= i < j < |r| && r[i] in order && r[j] in order ==> IndexOf(order, r[i]) <= IndexOf(order, r[j]))
            && OfRank(order, r, |order|) == OfRank(order, keys, |order|)
  {
    var r := SortedKeys(order, keys);
    SortedKeysStable(order, keys, |order|);
    forall i, j | 0 <= i < |r| && 0 <= j < |r| && r[i] in order && r[j] !in order ensures i < j {
      KnownBeforeUnknown(order, r, i, j);
    }
    forall i, j | 0 <= i < j < |r| && r[i] in order && r[j] in order
      ensures IndexOf(order, r[i]) <= IndexOf(order, r[j])
    {
      assert Rank(order, r[i]) <= Rank(order, r[j]);
    }
  }

  lemma KnownBeforeUnknown(order: seq<string>, r: seq<string>, i: nat, j: nat)
    requires SortedByRank(order, r)
    requires i < |r| && j < |r| && r[i] in order && r[j] !in order
    ensures i < j
  {
  }

  // ---------------------------------------------------------------------------
  // handleDrop

  /**
   * `handleDrop(target)` with `dragged` on the drag payload: dropping a name on
   * itself, or a name that is not listed, leaves the order as it is; otherwise
   * the dragged name is taken out and put back at the target's former index.
   */
  method HandleDrop(prev: seq<string>, dragged: string, target: string) returns (newOrder: seq<string>)
    ensures dragged == target || dragged !in prev || target !in prev ==> newOrder == prev
    ensures dragged != target && dragged in prev && target in prev ==>
              var d, t := IndexOf(prev, dragged), IndexOf(prev, target);
              && |newOrder| == |prev|
              && newOrder[t] == dragged
              && newOrder[..t] + newOrder[t + 1..] == prev[..d] + prev[d + 1..]
              && multiset(newOrder) == multiset(prev)
  {
    if dragged == target {
      return prev;
    }
    newOrder := prev;
    var draggedIndex := IndexOf(newOrder, dragged);
    var targetIndex := IndexOf(newOrder, target);
    if draggedIndex > -1 && targetIndex > -1 {
      // splice(draggedIndex, 1), then splice(targetIndex, 0, dragged)
      newOrder := newOrder[..draggedIndex] + newOrder[draggedIndex + 1..];
      newOrder := newOrder[..targetIndex] + [dragged] + newOrder[targetIndex..];
      SpliceMoves(prev, draggedIndex, targetIndex);
    }
  }

  /** The two splices of `handleDrop` move `s[d]` to index `t` and keep everything else in order. */
  lemma SpliceMoves(s: seq<string>, d: nat, t: nat)
    requires d < |s| && t < |s|
    ensures var removed := s[..d] + s[d + 1..];
            var moved := removed[..t] + [s[d]] + removed[t..];
            && |moved| == |s|
            && moved[t] == s[d]
            && moved[..t] + moved[t + 1..] == removed
            && multiset(moved) == multiset(s)
  {
    var removed := s[..d] + s[d + 1..];
    var moved := removed[..t] + [s[d]] + removed[t..];
    assert s == s[..d] + [s[d]] + s[d + 1..];
    assert multiset(s) == multiset(removed) + multiset{s[d]};
    assert removed == removed[..t] + removed[t..];
    assert moved[..t] == removed[..t];
    assert moved[t + 1..] == removed[t..];
  }
}
