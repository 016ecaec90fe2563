/** In-place merge sort of a singly linked list: the functions on lists that specify it,
    and the procedures that relink the cells. */
module ListMergeSort {

  datatype List = Nil | Cons(head: int, tail: List)

  // ----- the specification on lists

  function Length(xs: List): nat {
    match xs case Nil => 0 case Cons(_, t) => 1 + Length(t)
  }

  /** Alternate elements; with an odd number the last one goes to the second list. */
  function Split(xs: List): (p: (List, List))
    ensures Length(p.0) + Length(p.1) == Length(xs)
    ensures xs.Cons? && xs.tail.Cons? ==> Length(p.0) < Length(xs) && Length(p.1) < Length(xs)
  {
    match xs
    case Nil => (Nil, Nil)
    case Cons(h1, Nil) => (Nil, xs)
    case Cons(h1, Cons(h2, t)) =>
      var p := Split(t);
      (Cons(h1, p.0), Cons(h2, p.1))
  }

  function Merge(xs: List, ys: List): List {
    match xs
    case Nil => ys
    case Cons(x, xs1) =>
      match ys
      case Nil => xs
      case Cons(y, ys1) => if x < y then Cons(x, Merge(xs1, ys)) else Cons(y, Merge(xs, ys1))
  }

  function MergeSort(xs: List): List
    decreases Length(xs)
  {
    if xs.Nil? || xs.tail.Nil? then xs
    else
      var p := Split(xs);
      Merge(MergeSort(p.0), MergeSort(p.1))
  }

  function Elements(xs: List): multiset<int> {
    match xs case Nil => multiset{} case Cons(h, t) => multiset{h} + Elements(t)
  }

  /** No element is below `lo`, and they ascend. */
  predicate SortedFrom(lo: int, xs: List)
    decreases xs
  {
    match xs case Nil => true case Cons(h, t) => lo <= h && SortedFrom(h, t)
  }

  predicate Sorted(xs: List) {
    xs.Nil? || SortedFrom(xs.head, xs)
  }

  lemma {:induction false} SplitElements(xs: List)
    ensures Elements(Split(xs).0) + Elements(Split(xs).1) == Elements(xs)
  {
    if xs.Cons? && xs.tail.Cons? {
      SplitElements(xs.tail.tail);
    }
  }

  lemma {:induction false} MergeElements(xs: List, ys: List)
    ensures Elements(Merge(xs, ys)) == Elements(xs) + Elements(ys)
  {
    if xs.Cons? && ys.Cons? {
      if xs.head < ys.head {
        MergeElements(xs.tail, ys);
      } else {
        MergeElements(xs, ys.tail);
      }
    }
  }

  lemma {:induction false} MergeSorted(lo: int, xs: List, ys: List)
    requires SortedFrom(lo, xs) && SortedFrom(lo, ys)
    ensures SortedFrom(lo, Merge(xs, ys))
    decreases xs, ys
  {
    if xs.Cons? && ys.Cons? {
      if xs.head < ys.head {
        MergeSorted(xs.head, xs.tail, ys);
      } else {
        MergeSorted(ys.head, xs, ys.tail);
      }
    }
  }

  /** Merge sort returns a sorted permutation. */
  lemma {:induction false} MergeSortSorts(xs: List)
    ensures Sorted(MergeSort(xs)) && Elements(MergeSort(xs)) == Elements(xs)
    decreases Length(xs)
  {
    if xs.Cons? && xs.tail.Cons? {
      var (a, b) := Split(xs);
      MergeSortSorts(a);
      MergeSortSorts(b);
      SplitElements(xs);
      var (sa, sb) := (MergeSort(a), MergeSort(b));
      MergeElements(sa, sb);
      var lo := LowerBound(sa, sb);
      MergeSorted(lo, sa, sb);
    }
  }

  function ToSeq(xs: List): seq<int> {
    match xs case Nil => [] case Cons(h, t) => [h] + ToSeq(t)
  }

  lemma {:induction false} ElementsOfSeq(xs: List)
    ensures Elements(xs) == multiset(ToSeq(xs))
  {
    if xs.Cons? {
      ElementsOfSeq(xs.tail);
    }
  }

  lemma {:induction false} SortedSeq(lo: int, xs: List)
    requires SortedFrom(lo, xs)
    ensures forall i :: 0 <= i < |ToSeq(xs)| ==> lo <= ToSeq(xs)[i]
    ensures forall i, j :: 0 <= i < j < |ToSeq(xs)| ==> ToSeq(xs)[i] <= ToSeq(xs)[j]
    decreases xs
  {
    if xs.Cons? {
      SortedSeq(xs.head, xs.tail);
    }
  }

  /** As sequences: the same elements, in ascending order. */
  lemma MergeSortAscends(xs: List)
    ensures
      var s := ToSeq(MergeSort(xs));
      multiset(s) == multiset(ToSeq(xs)) && forall i, j :: 0 <= i < j < |s| ==> s[i] <= s[j]
  {
    MergeSortSorts(xs);
    ElementsOfSeq(xs);
    ElementsOfSeq(MergeSort(xs));
    if MergeSort(xs).Cons? {
      SortedSeq(MergeSort(xs).head, MergeSort(xs));
    }
  }

  lemma LowerBound(xs: List, ys: List) returns (lo: int)
    requires Sorted(xs) && Sorted(ys)
    ensures SortedFrom(lo, xs) && SortedFrom(lo, ys)
  {
    lo := if xs.Nil? then (if ys.Nil? then 0 else ys.head)
          else if ys.Nil? || xs.head <= ys.head then xs.head else ys.head;
  }

  // ----- the cells

  class Cell {
    var head: int
    var tail: Cell?

    constructor (head: int, tail: Cell?)
    {
      this.head, this.tail := head, tail;
    }
  }

  /** From `p` on there is a list of exactly the cells `cs`, each once, with contents `xs`. */
  ghost predicate ListAt(p: Cell?, cs: set<Cell>, xs: List)
    reads cs
    decreases xs
  {
    match xs
    case Nil => p == null && cs == {}
    case Cons(h, t) => p in cs && p.head == h && ListAt(p.tail, cs - {p}, t)
  }

  /** The cells `cs` fall into the two disjoint sets `xs` and `ys`. */
  ghost predicate Parts(xs: set<Cell>, ys: set<Cell>, cs: set<Cell>) {
    xs !! ys && xs + ys == cs
  }

  method SplitCells(xs: Cell?, ghost cs: set<Cell>, ghost s: List)
    returns (fst: Cell?, snd: Cell?, ghost left: set<Cell>, ghost right: set<Cell>)
    requires ListAt(xs, cs, s)
    modifies cs`tail
    ensures ListAt(fst, left, Split(s).0) && ListAt(snd, right, Split(s).1)
    ensures Parts(left, right, cs)
    decreases s
  {
    if xs == null {
      return null, null, {}, {};
    }
    var cdr := xs.tail;
    if cdr == null {
      return null, xs, {}, cs;
    }
    fst, snd, left, right := SplitCells(cdr.tail, cs - {xs} - {cdr}, s.tail.tail);
    xs.tail := fst;
    cdr.tail := snd;
    assert {xs} + left - {xs} == left && {cdr} + right - {cdr} == right;
    fst, snd, left, right := xs, cdr, {xs} + left, {cdr} + right;
  }

  method MergeCells(xs: Cell?, ys: Cell?, ghost left: set<Cell>, ghost right: set<Cell>, ghost s: List, ghost t: List)
    returns (zs: Cell?)
    requires ListAt(xs, left, s) && ListAt(ys, right, t) && left !! right
    modifies (left + right)`tail
    ensures ListAt(zs, left + right, Merge(s, t))
    decreases s, t
  {
    if xs == null {
      assert left + right == right;
      return ys;
    }
    if ys == null {
      assert left + right == left;
      return xs;
    }
    if xs.head < ys.head {
      zs := MergeCells(xs.tail, ys, left - {xs}, right, s.tail, t);
      xs.tail := zs;
      assert left + right - {xs} == left - {xs} + right;
      zs := xs;
    } else {
      zs := MergeCells(xs, ys.tail, left, right - {ys}, s, t.tail);
      ys.tail := zs;
      assert left + right - {ys} == left + (right - {ys});
      zs := ys;
    }
  }

  /** The sorted list is built from exactly the given cells, none of whose contents change. */
  method MergeSortCells(xs: Cell?, ghost cs: set<Cell>, ghost s: List) returns (zs: Cell?)
    requires ListAt(xs, cs, s)
    modifies cs`tail
    ensures ListAt(zs, cs, MergeSort(s))
    ensures Sorted(MergeSort(s)) && Elements(MergeSort(s)) == Elements(s)
    decreases Length(s)
  {
    MergeSortSorts(s);
    if xs == null {
      return xs;
    }
    if xs.tail == null {
      return xs;
    }
    var fst, snd;
    ghost var left, right;
    fst, snd, left, right := SplitCells(xs, cs, s);
    ghost var (a, b) := Split(s);
    fst := MergeSortCells(fst, left, a);
    snd := MergeSortCells(snd, right, b);
    zs := MergeCells(fst, snd, left, right, MergeSort(a), MergeSort(b));
  }
}
