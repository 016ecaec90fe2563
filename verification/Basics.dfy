/** Value types shared by the modules of this project. */
module Basics {

  datatype Option<+T> = None | Some(value: T)

  type byte = b: int | 0 <= b < 0x100
  type uint16 = n: int | 0 <= n < 0x1_0000

  /** Element `i`; named so that `Distinct` speaks of chosen positions only. */
  function Nth<T>(s: seq<T>, i: nat): T
    requires i < |s|
  {
    s[i]
  }

  /** No element occurs twice. */
  ghost predicate Distinct<T>(s: seq<T>) {
    forall i, j :: 0 <= i < j < |s| ==> Nth(s, i) != Nth(s, j)
  }

  /** The element at one position is at no other position. */
  lemma OnlyAt<T>(s: seq<T>, i: nat)
    requires Distinct(s) && i < |s|
    ensures forall k {:trigger s[k]} :: 0 <= k < |s| && k != i ==> s[k] != s[i]
  {
    forall k {:trigger s[k]} | 0 <= k < |s| && k != i ensures s[k] != s[i] {
      assert Nth(s, k) == s[k] && Nth(s, i) == s[i];
    }
  }

  /** `s` without the first occurrence of `x`. */
  function Without<T(==)>(s: seq<T>, x: T): seq<T> {
    if s == [] then []
    else if s[0] == x then s[1..]
    else [s[0]] + Without(s[1..], x)
  }

  lemma {:induction false} WithoutMembers<T>(s: seq<T>, x: T)
    requires Distinct(s)
    ensures Distinct(Without(s, x))
    ensures forall y :: y in Without(s, x) <==> y in s && y != x
  {
    if s != [] {
      DistinctTail(s);
      if s[0] != x {
        WithoutMembers(s[1..], x);
        DistinctCons(s[0], Without(s[1..], x));
      }
    }
  }

  lemma DistinctTail<T>(s: seq<T>)
    requires Distinct(s) && s != []
    ensures Distinct(s[1..]) && s[0] !in s[1..] && s == [s[0]] + s[1..]
  {
    OnlyAt(s, 0);
    forall i, j | 0 <= i < j < |s[1..]| ensures Nth(s[1..], i) != Nth(s[1..], j) {
      assert Nth(s[1..], i) == Nth(s, i + 1) && Nth(s[1..], j) == Nth(s, j + 1);
    }
    forall k | 0 <= k < |s[1..]| ensures s[1..][k] != s[0] {
      assert s[1..][k] == s[k + 1];
    }
  }

  lemma DistinctCons<T>(x: T, s: seq<T>)
    requires Distinct(s) && x !in s
    ensures Distinct([x] + s)
  {
    var t := [x] + s;
    forall i, j | 0 <= i < j < |t| ensures Nth(t, i) != Nth(t, j) {
      assert Nth(t, j) == Nth(s, j - 1);
      assert i > 0 ==> Nth(t, i) == Nth(s, i - 1);
    }
  }

  /** `s` with `x` put at position `i`. */
  function InsertAt<T>(s: seq<T>, i: nat, x: T): (t: seq<T>)
    requires i <= |s|
    ensures |t| == |s| + 1 && t[i] == x
    ensures forall k :: 0 <= k < i ==> t[k] == s[k]
    ensures forall k :: i < k < |t| ==> t[k] == s[k - 1]
  {
    if i == 0 then [x] + s else [s[0]] + InsertAt(s[1..], i - 1, x)
  }

  /** `s` without the element at position `i`. */
  function RemoveAt<T>(s: seq<T>, i: nat): (t: seq<T>)
    requires i < |s|
    ensures |t| == |s| - 1
    ensures forall k :: 0 <= k < i ==> t[k] == s[k]
    ensures forall k :: i <= k < |t| ==> t[k] == s[k + 1]
  {
    if i == 0 then s[1..] else [s[0]] + RemoveAt(s[1..], i - 1)
  }

  lemma InsertAtDistinct<T>(s: seq<T>, i: nat, x: T)
    requires i <= |s| && Distinct(s) && x !in s
    ensures Distinct(InsertAt(s, i, x))
  {
    var t := InsertAt(s, i, x);
    forall j, k | 0 <= j < k < |t| ensures Nth(t, j) != Nth(t, k) {
      assert j != i ==> Nth(t, j) == Nth(s, if j < i then j else j - 1);
      assert k != i ==> Nth(t, k) == Nth(s, if k < i then k else k - 1);
    }
  }

  lemma RemoveAtDistinct<T>(s: seq<T>, i: nat)
    requires i < |s| && Distinct(s)
    ensures Distinct(RemoveAt(s, i))
    ensures forall y :: y in RemoveAt(s, i) <==> y in s && y != s[i]
  {
    var t := RemoveAt(s, i);
    forall j, k | 0 <= j < k < |t| ensures Nth(t, j) != Nth(t, k) {
      assert Nth(t, j) == Nth(s, if j < i then j else j + 1);
      assert Nth(t, k) == Nth(s, if k < i then k else k + 1);
    }
    OnlyAt(s, i);
    forall k | 0 <= k < |s| && k != i ensures s[k] in t {
      assert s[k] == t[if k < i then k else k - 1];
    }
    forall k | 0 <= k < |t| ensures t[k] in s && t[k] != s[i] {
      assert t[k] == s[if k < i then k else k + 1];
    }
  }

  lemma ConcatDistinct<T>(s: seq<T>, t: seq<T>)
    requires Distinct(s) && Distinct(t) && forall k {:trigger s[k]} :: 0 <= k < |s| ==> s[k] !in t
    ensures Distinct(s + t)
  {
    var u := s + t;
    forall i, j | 0 <= i < j < |u| ensures Nth(u, i) != Nth(u, j) {
      assert Nth(u, i) == if i < |s| then Nth(s, i) else Nth(t, i - |s|);
      assert Nth(u, j) == if j < |s| then Nth(s, j) else Nth(t, j - |s|);
    }
  }

  lemma UpdateDistinct<T>(s: seq<T>, i: nat, x: T)
    requires Distinct(s) && i < |s| && x !in s
    ensures Distinct(s[i := x])
  {
    var t := s[i := x];
    forall j, k | 0 <= j < k < |t| ensures Nth(t, j) != Nth(t, k) {
      assert j != i ==> Nth(t, j) == Nth(s, j);
      assert k != i ==> Nth(t, k) == Nth(s, k);
    }
  }

  lemma {:induction false} SubsetSize<T>(a: set<T>, b: set<T>)
    requires a <= b
    ensures |a| <= |b|
  {
    if x :| x in a {
      SubsetSize(a - {x}, b - {x});
    }
  }

  function Pow2(k: nat): (n: nat)
    ensures n > 0
  {
    if k == 0 then 1 else 2 * Pow2(k - 1)
  }
}
