/**
 * Grouping values by a string key into a plain object, the way
 * `xs.reduce((acc, x) => { (acc[k] ||= []).push(x); return acc }, {})` does:
 * one group per distinct key, groups in order of the key's first occurrence,
 * and the values of each group in input order.
 */
module Grouping {
  import opened Js

  /** The elements of `xs` whose key is `k`, in input order. */
  function WithKey<T>(xs: seq<T>, key: T -> string, k: string): (r: seq<T>)
    ensures |r| <= |xs|
  {
    if |xs| == 0 then []
    else WithKey(xs[..|xs| - 1], key, k) + (if key(xs[|xs| - 1]) == k then [xs[|xs| - 1]] else [])
  }

  /** Every element of a group has the group's key and comes from the input. */
  lemma {:induction false} WithKeyMembers<T>(xs: seq<T>, key: T -> string, k: string)
    ensures forall y :: y in WithKey(xs, key, k) ==> key(y) == k && y in xs
    decreases |xs|
  {
    if |xs| > 0 {
      var init := xs[..|xs| - 1];
      WithKeyMembers(init, key, k);
      assert forall y :: y in init ==> y in xs;
    }
  }

  /** Total number of values over all groups. */
  function SumSizes<T>(g: Obj<seq<T>>): nat {
    if |g| == 0 then 0 else SumSizes(g[..|g| - 1]) + |g[|g| - 1].1|
  }

  /**
   * `g` groups `xs` by `key`: distinct keys, each group non-empty and holding
   * exactly the elements with its key in input order, every element's key
   * present, and the group sizes summing to the number of elements.
   */
  ghost predicate IsGrouping<T>(xs: seq<T>, key: T -> string, g: Obj<seq<T>>) {
    && DistinctKeys(g)
    && (forall j :: 0 <= j < |g| ==> g[j].1 == WithKey(xs, key, g[j].0) && g[j].1 != [])
    && (forall i :: 0 <= i < |xs| ==> HasKey(g, key(xs[i])))
    && SumSizes(g) == |xs|
  }

  /** One accumulation step: append `x` to the group of `k`, opening it at the end if absent. */
  function Push<T>(g: Obj<seq<T>>, k: string, x: T): Obj<seq<T>> {
    var j := IndexOfKey(g, k);
    if j == |g| then g + [(k, [x])] else g[j := (k, g[j].1 + [x])]
  }

  /** The object the `reduce` builds. */
  function GroupBy<T>(xs: seq<T>, key: T -> string): Obj<seq<T>> {
    if |xs| == 0 then [] else Push(GroupBy(xs[..|xs| - 1], key), key(xs[|xs| - 1]), xs[|xs| - 1])
  }

  lemma {:induction false} GroupByIsGrouping<T>(xs: seq<T>, key: T -> string)
    ensures IsGrouping(xs, key, GroupBy(xs, key))
    decreases |xs|
  {
    if |xs| > 0 {
      var init := xs[..|xs| - 1];
      GroupByIsGrouping(init, key);
      PushKeepsGrouping(init, key, GroupBy(init, key), xs[|xs| - 1]);
      assert init + [xs[|xs| - 1]] == xs;
    }
  }

  lemma PushKeepsGrouping<T>(xs: seq<T>, key: T -> string, g: Obj<seq<T>>, x: T)
    requires IsGrouping(xs, key, g)
    ensures IsGrouping(xs + [x], key, Push(g, key(x), x))
  {
    if IndexOfKey(g, key(x)) == |g| {
      PushNewKey(xs, key, g, x);
    } else {
      PushExistingKey(xs, key, g, x);
    }
  }

  lemma WithKeySnoc<T>(xs: seq<T>, key: T -> string, x: T, c: string)
    ensures WithKey(xs + [x], key, c) == WithKey(xs, key, c) + (if c == key(x) then [x] else [])
  {
    assert (xs + [x])[..|xs|] == xs;
  }

  lemma PushNewKey<T>(xs: seq<T>, key: T -> string, g: Obj<seq<T>>, x: T)
    requires IsGrouping(xs, key, g) && IndexOfKey(g, key(x)) == |g|
    ensures IsGrouping(xs + [x], key, Push(g, key(x), x))
  {
    var xs' := xs + [x];
    var k := key(x);
    var g' := g + [(k, [x])];
    assert Push(g, k, x) == g';
    WithKeyAbsent(xs, key, k, g);
    assert g'[..|g'| - 1] == g;
    assert SumSizes(g') == |xs'|;
    assert DistinctKeys(g');
    forall w | 0 <= w < |g'| ensures g'[w].1 == WithKey(xs', key, g'[w].0) && g'[w].1 != [] {
      WithKeySnoc(xs, key, x, g'[w].0);
      if w < |g| { assert g'[w] == g[w]; }
    }
    forall i | 0 <= i < |xs'| ensures HasKey(g', key(xs'[i])) {
      if i < |xs| {
        assert xs'[i] == xs[i];
        var w :| 0 <= w < |g| && g[w].0 == key(xs[i]);
        assert g'[w] == g[w];
      } else {
        assert g'[|g|].0 == k;
      }
    }
  }

  lemma PushExistingKey<T>(xs: seq<T>, key: T -> string, g: Obj<seq<T>>, x: T)
    requires IsGrouping(xs, key, g) && IndexOfKey(g, key(x)) < |g|
    ensures IsGrouping(xs + [x], key, Push(g, key(x), x))
  {
    var j := IndexOfKey(g, key(x));
    var e := (key(x), g[j].1 + [x]);
    SumSizesUpdate(g, j, e);
    UpdateKeepsKeys(xs, key, g, x);
    UpdateKeepsGroups(xs, key, g, x);
  }

  /** Appending to an existing group keeps the keys distinct and every element's key present. */
  lemma UpdateKeepsKeys<T>(xs: seq<T>, key: T -> string, g: Obj<seq<T>>, x: T)
    requires IndexOfKey(g, key(x)) < |g|
    requires DistinctKeys(g) && forall i :: 0 <= i < |xs| ==> HasKey(g, key(xs[i]))
    ensures DistinctKeys(Push(g, key(x), x))
    ensures forall i :: 0 <= i < |xs + [x]| ==> HasKey(Push(g, key(x), x), key((xs + [x])[i]))
  {
    var j := IndexOfKey(g, key(x));
    var g' := g[j := (key(x), g[j].1 + [x])];
    assert Push(g, key(x), x) == g';
    assert forall w :: 0 <= w < |g| ==> g'[w].0 == g[w].0;
    var ys := xs + [x];
    forall i | 0 <= i < |ys| ensures HasKey(g', key(ys[i])) {
      if i < |xs| {
        var w :| 0 <= w < |g| && g[w].0 == key(xs[i]);
        assert g'[w].0 == key(ys[i]);
      } else {
        assert g'[j].0 == key(x);
      }
    }
  }

  /** After pushing onto an existing group, every group is still its key's elements in order. */
  lemma UpdateKeepsGroups<T>(xs: seq<T>, key: T -> string, g: Obj<seq<T>>, x: T)
    requires DistinctKeys(g) && IndexOfKey(g, key(x)) < |g|
    requires forall j :: 0 <= j < |g| ==> g[j].1 == WithKey(xs, key, g[j].0) && g[j].1 != []
    ensures var g' := Push(g, key(x), x);
            forall w :: 0 <= w < |g'| ==> g'[w].1 == WithKey(xs + [x], key, g'[w].0) && g'[w].1 != []
  {
    var k := key(x);
    var j := IndexOfKey(g, k);
    var g' := g[j := (k, g[j].1 + [x])];
    forall w | 0 <= w < |g'| ensures g'[w].1 == WithKey(xs + [x], key, g'[w].0) && g'[w].1 != [] {
      WithKeySnoc(xs, key, x, g'[w].0);
      if w != j { assert g'[w] == g[w]; assert g[w].0 != k; }
    }
  }

  /** A key no element carries has no elements. */
  lemma {:induction false} WithKeyAbsent<T>(xs: seq<T>, key: T -> string, k: string, g: Obj<seq<T>>)
    requires forall i :: 0 <= i < |xs| ==> HasKey(g, key(xs[i]))
    requires forall j :: 0 <= j < |g| ==> g[j].0 != k
    ensures WithKey(xs, key, k) == []
    decreases |xs|
  {
    if |xs| > 0 {
      var init := xs[..|xs| - 1];
      forall i | 0 <= i < |init| ensures HasKey(g, key(init[i])) {
        assert init[i] == xs[i];
      }
      WithKeyAbsent(init, key, k, g);
      assert HasKey(g, key(xs[|xs| - 1]));
    }
  }

  lemma {:induction false} SumSizesUpdate<T>(g: Obj<seq<T>>, j: nat, e: (string, seq<T>))
    requires j < |g|
    ensures SumSizes(g[j := e]) == SumSizes(g) - |g[j].1| + |e.1|
    decreases |g|
  {
    var g' := g[j := e];
    if j < |g| - 1 {
      assert g'[..|g'| - 1] == g[..|g| - 1][j := e];
      SumSizesUpdate(g[..|g| - 1], j, e);
    } else {
      assert g'[..|g'| - 1] == g[..|g| - 1];
    }
  }

  /** Position of the first element whose key is `k`, or `|xs|` when there is none. */
  function FirstOf<T>(xs: seq<T>, key: T -> string, k: string): (i: nat)
    ensures i <= |xs|
    ensures i < |xs| ==> key(xs[i]) == k
    ensures forall j :: 0 <= j < i ==> key(xs[j]) != k
  {
    if |xs| == 0 then 0
    else if key(xs[0]) == k then 0
    else 1 + FirstOf(xs[1..], key, k)
  }

  /** Appending an element moves no first occurrence, and gives `key(x)` its first one if it had none. */
  lemma FirstOfSnoc<T>(xs: seq<T>, key: T -> string, x: T, k: string)
    ensures FirstOf(xs + [x], key, k) ==
            if FirstOf(xs, key, k) < |xs| then FirstOf(xs, key, k)
            else if key(x) == k then |xs| else |xs| + 1
  {
    var f := FirstOf(xs, key, k);
    var f' := FirstOf(xs + [x], key, k);
    assert forall j :: 0 <= j < |xs| ==> (xs + [x])[j] == xs[j];
    if f < |xs| {
      assert key((xs + [x])[f]) == k;
    } else if key(x) == k {
      assert key((xs + [x])[|xs|]) == k;
    }
  }

  /** Every key of `g` occurs in `xs`, and the keys come in the order of their first occurrence. */
  predicate InFirstOccurrenceOrder<T>(xs: seq<T>, key: T -> string, g: Obj<seq<T>>) {
    && (forall j :: 0 <= j < |g| ==> FirstOf(xs, key, g[j].0) < |xs|)
    && (forall a, b :: 0 <= a < b < |g| ==> FirstOf(xs, key, g[a].0) < FirstOf(xs, key, g[b].0))
  }

  /** One accumulation step keeps the groups in first-occurrence order. */
  lemma PushKeepsOrder<T>(xs: seq<T>, key: T -> string, g: Obj<seq<T>>, x: T)
    requires forall i :: 0 <= i < |xs| ==> HasKey(g, key(xs[i]))
    requires InFirstOccurrenceOrder(xs, key, g)
    ensures InFirstOccurrenceOrder(xs + [x], key, Push(g, key(x), x))
  {
    forall w | 0 <= w < |g| ensures FirstOf(xs + [x], key, g[w].0) == FirstOf(xs, key, g[w].0) {
      FirstOfSnoc(xs, key, x, g[w].0);
    }
    if IndexOfKey(g, key(x)) == |g| {
      NewKeyFirstOccurs(xs, key, g, x);
      FirstOfSnoc(xs, key, x, key(x));
      OpenGroupKeepsOrder(xs + [x], key, g, key(x), x);
    } else {
      var j := IndexOfKey(g, key(x));
      var g' := g[j := (key(x), g[j].1 + [x])];
      assert forall w :: 0 <= w < |g| ==> g'[w].0 == g[w].0;
    }
  }

  /** A key the grouping lacks does not occur in the grouped elements. */
  lemma NewKeyFirstOccurs<T>(xs: seq<T>, key: T -> string, g: Obj<seq<T>>, x: T)
    requires forall i :: 0 <= i < |xs| ==> HasKey(g, key(xs[i]))
    requires IndexOfKey(g, key(x)) == |g|
    ensures FirstOf(xs, key, key(x)) == |xs|
  {
    forall i | 0 <= i < |xs| ensures key(xs[i]) != key(x) {
      assert HasKey(g, key(xs[i]));
      var w :| 0 <= w < |g| && g[w].0 == key(xs[i]);
      assert g[w].0 != key(x);
    }
  }

  /** Opening a group for a key that first occurs after all the others keeps the order. */
  lemma OpenGroupKeepsOrder<T>(ys: seq<T>, key: T -> string, g: Obj<seq<T>>, k: string, x: T)
    requires |ys| >= 1 && FirstOf(ys, key, k) == |ys| - 1
    requires forall w :: 0 <= w < |g| ==> FirstOf(ys, key, g[w].0) < |ys| - 1
    requires forall a, b :: 0 <= a < b < |g| ==> FirstOf(ys, key, g[a].0) < FirstOf(ys, key, g[b].0)
    ensures InFirstOccurrenceOrder(ys, key, g + [(k, [x])])
  {
    var g' := g + [(k, [x])];
    assert forall w :: 0 <= w < |g| ==> g'[w] == g[w];
  }

  /**
   * The groups of `GroupBy` come in the order in which their keys first occur
   * in the input: each key occurs, and an earlier group's key occurs first earlier.
   */
  lemma {:induction false} GroupByFirstOccurrence<T>(xs: seq<T>, key: T -> string)
    ensures InFirstOccurrenceOrder(xs, key, GroupBy(xs, key))
    decreases |xs|
  {
    if |xs| > 0 {
      var n := |xs| - 1;
      var init, x := xs[..n], xs[n];
      GroupByFirstOccurrence(init, key);
      GroupByIsGrouping(init, key);
      PushKeepsOrder(init, key, GroupBy(init, key), x);
      assert init + [x] == xs;
    }
  }
}
