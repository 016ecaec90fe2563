/** Search in a binary tree that also reports the neighbours of the key. The search only
    reads the tree, so a tree is a value; the two neighbours are written to the caller's
    array on the way down. */
module AvTree {
  import opened Basics

  datatype Tree<E> = Null | Node(left: Tree<E>, elem: E, right: Tree<E>)

  /** The result of a comparison: a 32-bit `int`. */
  type Int32 = x: int | -0x8000_0000 <= x < 0x8000_0000

  /** The same 32 bits read as an `unsigned int`. */
  function Unsigned(x: Int32): nat {
    if x < 0 then x + 0x1_0000_0000 else x
  }

  function InOrder<E>(t: Tree<E>): seq<E> {
    match t case Null => [] case Node(l, e, r) => InOrder(l) + ([e] + InOrder(r))
  }

  /** In this order the key is first above the elements, then equal to at most one, then below. */
  ghost predicate Consistent<K, E>(key: K, cmp: (K, E) -> Int32, es: seq<E>) {
    forall i, j :: 0 <= i < j < |es| && cmp(key, es[i]) <= 0 ==> cmp(key, es[j]) < 0
  }

  /** The last element the key is above, or `was` if there is none. */
  function LastBelow<K, E>(key: K, cmp: (K, E) -> Int32, es: seq<E>, was: E): E {
    if es == [] then was
    else if cmp(key, es[|es| - 1]) > 0 then es[|es| - 1]
    else LastBelow(key, cmp, es[..|es| - 1], was)
  }

  /** The first element the key is below, or `was` if there is none. */
  function FirstAbove<K, E>(key: K, cmp: (K, E) -> Int32, es: seq<E>, was: E): E {
    if es == [] then was
    else if cmp(key, es[0]) < 0 then es[0]
    else FirstAbove(key, cmp, es[1..], was)
  }

  lemma {:induction false} LastBelowConcat<K, E>(key: K, cmp: (K, E) -> Int32, a: seq<E>, b: seq<E>, was: E)
    ensures LastBelow(key, cmp, a + b, was) == LastBelow(key, cmp, b, LastBelow(key, cmp, a, was))
    decreases |b|
  {
    if b == [] {
      assert a + b == a;
    } else {
      assert (a + b)[..|a + b| - 1] == a + b[..|b| - 1];
      LastBelowConcat(key, cmp, a, b[..|b| - 1], was);
    }
  }

  lemma {:induction false} FirstAboveConcat<K, E>(key: K, cmp: (K, E) -> Int32, a: seq<E>, b: seq<E>, was: E)
    ensures FirstAbove(key, cmp, a + b, was) == FirstAbove(key, cmp, a, FirstAbove(key, cmp, b, was))
    decreases |a|
  {
    if a == [] {
      assert a + b == b;
    } else {
      assert (a + b)[1..] == a[1..] + b;
      FirstAboveConcat(key, cmp, a[1..], b, was);
    }
  }

  lemma {:induction false} NoneBelow<K, E>(key: K, cmp: (K, E) -> Int32, es: seq<E>, was: E)
    requires forall i :: 0 <= i < |es| ==> cmp(key, es[i]) <= 0
    ensures LastBelow(key, cmp, es, was) == was
    decreases |es|
  {
    if es != [] {
      NoneBelow(key, cmp, es[..|es| - 1], was);
    }
  }

  lemma {:induction false} NoneAbove<K, E>(key: K, cmp: (K, E) -> Int32, es: seq<E>, was: E)
    requires forall i :: 0 <= i < |es| ==> cmp(key, es[i]) >= 0
    ensures FirstAbove(key, cmp, es, was) == was
    decreases |es|
  {
    if es != [] {
      NoneAbove(key, cmp, es[1..], was);
    }
  }

  /** What a comparison with an element says about those before it and those behind it. */
  lemma AtElement<K, E>(key: K, cmp: (K, E) -> Int32, l: seq<E>, e: E, r: seq<E>)
    requires Consistent(key, cmp, l + ([e] + r))
    ensures Consistent(key, cmp, l) && Consistent(key, cmp, r)
    ensures cmp(key, e) >= 0 ==> forall i :: 0 <= i < |l| ==> cmp(key, l[i]) > 0
    ensures cmp(key, e) <= 0 ==> forall i :: 0 <= i < |r| ==> cmp(key, r[i]) < 0
  {
    var es := l + ([e] + r);
    assert es[|l|] == e;
    forall i | 0 <= i < |l| ensures es[i] == l[i] {}
    forall i | 0 <= i < |r| ensures es[|l| + 1 + i] == r[i] {}
  }

  lemma AtRoot<K, E>(key: K, cmp: (K, E) -> Int32, t: Tree<E>)
    requires t.Node? && Consistent(key, cmp, InOrder(t))
    ensures Consistent(key, cmp, InOrder(t.left)) && Consistent(key, cmp, InOrder(t.right))
    ensures cmp(key, t.elem) >= 0 ==> forall i :: 0 <= i < |InOrder(t.left)| ==> cmp(key, InOrder(t.left)[i]) > 0
    ensures cmp(key, t.elem) <= 0 ==> forall i :: 0 <= i < |InOrder(t.right)| ==> cmp(key, InOrder(t.right)[i]) < 0
  {
    AtElement(key, cmp, InOrder(t.left), t.elem, InOrder(t.right));
  }

  /** The neighbours of the key in a tree, from those in the subtree the search goes to. */
  lemma NeighboursAtRoot<K, E>(key: K, cmp: (K, E) -> Int32, t: Tree<E>, was0: E, was1: E)
    requires t.Node? && Consistent(key, cmp, InOrder(t))
    ensures var l, r := InOrder(t.left), InOrder(t.right);
            && LastBelow(key, cmp, InOrder(t), was0) ==
                 (if cmp(key, t.elem) > 0 then LastBelow(key, cmp, r, t.elem) else LastBelow(key, cmp, l, was0))
            && FirstAbove(key, cmp, InOrder(t), was1) ==
                 (if cmp(key, t.elem) < 0 then FirstAbove(key, cmp, l, t.elem) else FirstAbove(key, cmp, r, was1))
    ensures cmp(key, t.elem) == 0 ==>
              && FirstAbove(key, cmp, InOrder(t.left), was1) == was1
              && forall w :: LastBelow(key, cmp, InOrder(t.right), w) == w
  {
    var l, r, e := InOrder(t.left), InOrder(t.right), t.elem;
    AtRoot(key, cmp, t);
    LastBelowConcat(key, cmp, l, [e] + r, was0);
    LastBelowConcat(key, cmp, [e], r, LastBelow(key, cmp, l, was0));
    FirstAboveConcat(key, cmp, l, [e] + r, was1);
    FirstAboveConcat(key, cmp, [e], r, was1);
    if cmp(key, e) <= 0 {
      forall w ensures LastBelow(key, cmp, r, w) == w {
        NoneBelow(key, cmp, r, w);
      }
    }
    if cmp(key, e) >= 0 {
      forall w ensures FirstAbove(key, cmp, l, w) == w {
        NoneAbove(key, cmp, l, w);
      }
    }
  }

  /** Whether some element of the tree compares equal to the key. */
  ghost predicate Present<K, E>(key: K, cmp: (K, E) -> Int32, es: seq<E>) {
    exists i :: 0 <= i < |es| && cmp(key, es[i]) == 0
  }

  lemma PresentAtRoot<K, E>(key: K, cmp: (K, E) -> Int32, t: Tree<E>)
    requires t.Node? && Consistent(key, cmp, InOrder(t))
    ensures cmp(key, t.elem) < 0 ==> Present(key, cmp, InOrder(t)) == Present(key, cmp, InOrder(t.left))
    ensures cmp(key, t.elem) > 0 ==> Present(key, cmp, InOrder(t)) == Present(key, cmp, InOrder(t.right))
    ensures cmp(key, t.elem) == 0 ==> Present(key, cmp, InOrder(t))
    ensures forall e :: e in InOrder(t) <==> e in InOrder(t.left) || e == t.elem || e in InOrder(t.right)
  {
    AtRoot(key, cmp, t);
    MembersAt(key, cmp, InOrder(t.left), t.elem, InOrder(t.right));
  }

  lemma MembersAt<K, E>(key: K, cmp: (K, E) -> Int32, l: seq<E>, e: E, r: seq<E>)
    ensures var es := l + ([e] + r);
            && (Present(key, cmp, es) <==> Present(key, cmp, l) || cmp(key, e) == 0 || Present(key, cmp, r))
            && forall x :: x in es <==> x in l || x == e || x in r
  {
    var es := l + ([e] + r);
    assert es[|l|] == e;
    forall i | 0 <= i < |l| ensures es[i] == l[i] {}
    forall i | 0 <= i < |r| ensures es[|l| + 1 + i] == r[i] {}
  }

  /** Returns the element equal to the key if the tree has one. If the caller passes an array,
      it receives the key's nearest smaller and nearest greater element, whether or not the key
      is found; an entry with no such element keeps its value. */
  method Find<K, E(==)>(t: Tree<E>, key: K, cmp: (K, E) -> Int32, next: array?<E>) returns (found: Option<E>)
    requires next != null ==> next.Length == 2
    requires Consistent(key, cmp, InOrder(t))
    modifies if next == null then {} else {next}
    ensures found.Some? <==> Present(key, cmp, InOrder(t))
    ensures found.Some? ==> found.value in InOrder(t) && cmp(key, found.value) == 0
    ensures next != null ==> next[0] == LastBelow(key, cmp, InOrder(t), old(next[0]))
    ensures next != null ==> next[1] == FirstAbove(key, cmp, InOrder(t), old(next[1]))
    decreases t
  {
    if t == Null {
      return None;
    }
    AtRoot(key, cmp, t);
    PresentAtRoot(key, cmp, t);
    if next != null {
      NeighboursAtRoot(key, cmp, t, next[0], next[1]);
    }
    var v := Unsigned(cmp(key, t.elem));
    if v != 0 {
      if next != null {
        next[v / 0x8000_0000] := t.elem;
      }
      found := Find(if v / 0x8000_0000 == 1 then t.left else t.right, key, cmp, next);
    } else {
      if next != null {
        var _ := Find(t.left, key, cmp, next);
        var _ := Find(t.right, key, cmp, next);
      }
      found := Some(t.elem);
    }
  }

  // ----- ordered trees

  /** A three-way comparison of elements that comes from a strict total order. */
  ghost predicate ThreeWay<E(!new)>(cmp: (E, E) -> Int32) {
    && (forall a, b :: cmp(a, b) < 0 <==> cmp(b, a) > 0)
    && (forall a, b, c :: cmp(a, b) <= 0 && cmp(b, c) < 0 ==> cmp(a, c) < 0)
  }

  ghost predicate Ascending<E>(cmp: (E, E) -> Int32, es: seq<E>) {
    forall i, j :: 0 <= i < j < |es| ==> cmp(es[i], es[j]) < 0
  }

  /** The last element that the key is above is at `k`. */
  ghost predicate LastBelowAt<K, E>(key: K, cmp: (K, E) -> Int32, es: seq<E>, e: E, k: nat) {
    k < |es| && es[k] == e && cmp(key, e) > 0 && forall j :: k < j < |es| ==> cmp(key, es[j]) <= 0
  }

  /** The first element that the key is below is at `k`. */
  ghost predicate FirstAboveAt<K, E>(key: K, cmp: (K, E) -> Int32, es: seq<E>, e: E, k: nat) {
    k < |es| && es[k] == e && cmp(key, e) < 0 && forall j :: 0 <= j < k ==> cmp(key, es[j]) >= 0
  }

  lemma {:induction false} LastBelowMeans<K, E>(key: K, cmp: (K, E) -> Int32, es: seq<E>, was: E)
    ensures || ((forall i :: 0 <= i < |es| ==> cmp(key, es[i]) <= 0) && LastBelow(key, cmp, es, was) == was)
            || exists k: nat :: LastBelowAt(key, cmp, es, LastBelow(key, cmp, es, was), k)
    decreases |es|
  {
    var lower := LastBelow(key, cmp, es, was);
    if es != [] && cmp(key, es[|es| - 1]) <= 0 {
      var rest := es[..|es| - 1];
      LastBelowMeans(key, cmp, rest, was);
      if k: nat :| LastBelowAt(key, cmp, rest, lower, k) {
        assert LastBelowAt(key, cmp, es, lower, k);
      }
    } else if es != [] {
      assert LastBelowAt(key, cmp, es, lower, |es| - 1);
    }
  }

  lemma {:induction false} FirstAboveMeans<K, E>(key: K, cmp: (K, E) -> Int32, es: seq<E>, was: E)
    ensures || ((forall i :: 0 <= i < |es| ==> cmp(key, es[i]) >= 0) && FirstAbove(key, cmp, es, was) == was)
            || exists k: nat :: FirstAboveAt(key, cmp, es, FirstAbove(key, cmp, es, was), k)
    decreases |es|
  {
    var upper := FirstAbove(key, cmp, es, was);
    if es != [] && cmp(key, es[0]) >= 0 {
      var rest := es[1..];
      FirstAboveMeans(key, cmp, rest, was);
      if k: nat :| FirstAboveAt(key, cmp, rest, upper, k) {
        assert forall j :: 0 < j <= k ==> es[j] == rest[j - 1];
        assert FirstAboveAt(key, cmp, es, upper, k + 1);
      }
    } else if es != [] {
      assert FirstAboveAt(key, cmp, es, upper, 0);
    }
  }

  /** In a strictly ordered tree every key meets the search's assumption. */
  lemma OrderedConsistent<E(!new)>(cmp: (E, E) -> Int32, es: seq<E>, key: E)
    requires ThreeWay(cmp) && Ascending(cmp, es)
    ensures Consistent(key, cmp, es)
  {
  }

  /** In a strictly ordered tree the search leaves the greatest smaller element in entry 0. */
  lemma GreatestSmaller<E(!new)>(cmp: (E, E) -> Int32, es: seq<E>, key: E, was: E)
    requires ThreeWay(cmp) && Ascending(cmp, es)
    ensures var lower := LastBelow(key, cmp, es, was);
            if exists e :: e in es && cmp(key, e) > 0
            then lower in es && cmp(key, lower) > 0
                 && forall e :: e in es && cmp(key, e) > 0 ==> e == lower || cmp(e, lower) < 0
            else lower == was
  {
    LastBelowMeans(key, cmp, es, was);
    var lower := LastBelow(key, cmp, es, was);
    if k: nat :| LastBelowAt(key, cmp, es, lower, k) {
      forall e | e in es && cmp(key, e) > 0 ensures e == lower || cmp(e, lower) < 0 {
        var i :| 0 <= i < |es| && es[i] == e;
        assert i <= k;
      }
    }
  }

  /** In a strictly ordered tree the search leaves the least greater element in entry 1. */
  lemma LeastGreater<E(!new)>(cmp: (E, E) -> Int32, es: seq<E>, key: E, was: E)
    requires ThreeWay(cmp) && Ascending(cmp, es)
    ensures var upper := FirstAbove(key, cmp, es, was);
            if exists e :: e in es && cmp(key, e) < 0
            then upper in es && cmp(key, upper) < 0
                 && forall e :: e in es && cmp(key, e) < 0 ==> e == upper || cmp(upper, e) < 0
            else upper == was
  {
    FirstAboveMeans(key, cmp, es, was);
    var upper := FirstAbove(key, cmp, es, was);
    if k: nat :| FirstAboveAt(key, cmp, es, upper, k) {
      forall e | e in es && cmp(key, e) < 0 ensures e == upper || cmp(upper, e) < 0 {
        var i :| 0 <= i < |es| && es[i] == e;
        assert i >= k;
      }
    }
  }
}
