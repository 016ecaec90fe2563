/** The LIST macros: a doubly linked list with a single-pointer head.  Most of its
    operations do not name the head; which list an element is on is known to the proof only. */
module LinkList {
  import opened Basics

  /** The address of a pointer to an element. */
  datatype Loc = Nowhere | FirstOf(h: Head) | NextOf(e: Elm)

  class Elm {
    var next: Elm?
    var prev: Loc

    constructor ()
    {
      next, prev := null, Nowhere;
    }
  }

  /** `*l = v`. */
  method Store(l: Loc, v: Elm?)
    requires l != Nowhere
    modifies (if l.FirstOf? then {l.h} else {})`first, (if l.NextOf? then {l.e} else {})`next
    ensures l.FirstOf? ==> l.h.first == v
    ensures l.NextOf? ==> l.e.next == v
  {
    match l {
      case FirstOf(h) => h.first := v;
      case NextOf(e) => e.next := v;
    }
  }

  class Head {
    var first: Elm?
    ghost var elms: seq<Elm>

    ghost predicate Valid()
      reads this, elms
    {
      && Distinct(elms)
      && first == (if elms == [] then null else elms[0])
      && (forall i {:trigger elms[i].next} :: 0 <= i < |elms| ==>
            elms[i].next == if i + 1 < |elms| then elms[i + 1] else null)
      && (forall i {:trigger elms[i].prev} :: 0 <= i < |elms| ==>
            elms[i].prev == if i == 0 then FirstOf(this) else NextOf(elms[i - 1]))
    }

    ghost function IndexOf(e: Elm): (i: nat)
      requires e in elms
      reads this
      ensures i < |elms| && elms[i] == e
    {
      var i: nat :| i < |elms| && elms[i] == e; i
    }

    constructor Init()
      ensures Valid() && elms == []
    {
      first, elms := null, [];
    }

    /** LIST_PREV: the element containing the field that `prev` is the address of. */
    method Prev(elm: Elm) returns (e: Elm?)
      requires Valid() && elm in elms
      ensures e == if elm == elms[0] then null else elms[IndexOf(elm) - 1]
    {
      ghost var i := IndexOf(elm);
      OnlyAt<Elm>(elms, i);
      assert elms[i].prev == elm.prev;
      e := if elm.prev == FirstOf(this) then null else elm.prev.e;
    }

    /** LIST_FOREACH. */
    method Foreach() returns (visited: seq<Elm>)
      requires Valid()
      ensures visited == elms
    {
      visited := [];
      var e := first;
      while e != null
        invariant visited <= elms
        invariant e == if |visited| == |elms| then null else elms[|visited|]
        decreases |elms| - |visited|
      {
        assert elms[|visited|].next == e.next;
        visited := visited + [e];
        e := e.next;
      }
    }

    method InsertHead(elm: Elm)
      requires Valid() && elm !in elms
      modifies this, elms, elm
      ensures Valid() && elms == [elm] + old(elms)
    {
      DistinctCons(elm, elms);
      if elms != [] { OnlyAt<Elm>(elms, 0); }
      elm.next := first;
      if elm.next != null {
        first.prev := NextOf(elm);
      }
      first := elm;
      elm.prev := FirstOf(this);
      elms := [elm] + elms;
    }

    // ----- what a few changed links amount to

    /** Links of the elements `s` with `x` linked in at position `i`. */
    ghost predicate Spliced(s: seq<Elm>, i: nat, x: Elm)
      requires i <= |s|
      reads this, s, x
    {
      && first == (if i == 0 then x else s[0])
      && x.next == (if i < |s| then s[i] else null)
      && x.prev == (if i == 0 then FirstOf(this) else NextOf(s[i - 1]))
      && (forall k {:trigger s[k].next} :: 0 <= k < |s| ==>
            s[k].next == if k + 1 == i then x else if k + 1 < |s| then s[k + 1] else null)
      && (forall k {:trigger s[k].prev} :: 0 <= k < |s| ==>
            s[k].prev == if k == i then NextOf(x) else if k == 0 then FirstOf(this) else NextOf(s[k - 1]))
    }

    lemma SplicedIsValid(s: seq<Elm>, i: nat, x: Elm)
      requires i <= |s| && Distinct(s) && x !in s && Spliced(s, i, x)
      requires elms == InsertAt(s, i, x)
      ensures Valid()
    {
      InsertAtDistinct(s, i, x);
      var t := elms;
      forall k {:trigger t[k].next} | 0 <= k < |t| ensures t[k].next == if k + 1 < |t| then t[k + 1] else null {
        if k < i { assert t[k] == s[k]; } else if k > i { assert t[k] == s[k - 1]; }
      }
      forall k {:trigger t[k].prev} | 0 <= k < |t|
        ensures t[k].prev == if k == 0 then FirstOf(this) else NextOf(t[k - 1])
      {
        if k < i { assert t[k] == s[k]; } else if k > i { assert t[k] == s[k - 1]; }
      }
    }

    /** Links of the elements `s` that bypass position `i`. */
    ghost predicate Bypassed(s: seq<Elm>, i: nat)
      requires i < |s|
      reads this, s
    {
      && first == (if |s| == 1 then null else if i == 0 then s[1] else s[0])
      && (forall k {:trigger s[k].next} :: 0 <= k < |s| && k != i && k + 1 != i ==>
            s[k].next == if k + 1 < |s| then s[k + 1] else null)
      && (forall k {:trigger s[k].prev} :: 0 <= k < |s| && k != i && k != i + 1 ==>
            s[k].prev == if k == 0 then FirstOf(this) else NextOf(s[k - 1]))
      && (i > 0 ==> s[i - 1].next == if i + 1 < |s| then s[i + 1] else null)
      && (i + 1 < |s| ==> s[i + 1].prev == if i == 0 then FirstOf(this) else NextOf(s[i - 1]))
    }

    lemma BypassedIsValid(s: seq<Elm>, i: nat)
      requires i < |s| && Distinct(s) && Bypassed(s, i)
      requires elms == RemoveAt(s, i)
      ensures Valid()
    {
      RemoveAtDistinct(s, i);
      var t := elms;
      forall k {:trigger t[k].next} | 0 <= k < |t| ensures t[k].next == if k + 1 < |t| then t[k + 1] else null {
        if k < i { assert t[k] == s[k]; } else { assert t[k] == s[k + 1]; }
      }
      forall k {:trigger t[k].prev} | 0 <= k < |t|
        ensures t[k].prev == if k == 0 then FirstOf(this) else NextOf(t[k - 1])
      {
        if k < i { assert t[k] == s[k]; } else { assert t[k] == s[k + 1]; }
      }
    }

    /** Links of `a` and of `b`, with the last of `a` linked to the first of `b`. */
    ghost predicate Joined(a: seq<Elm>, b: seq<Elm>)
      requires b != []
      reads this, a, b
    {
      && first == (if a == [] then b[0] else a[0])
      && (forall k {:trigger a[k].next} :: 0 <= k < |a| ==> a[k].next == if k + 1 < |a| then a[k + 1] else b[0])
      && (forall k {:trigger b[k].next} :: 0 <= k < |b| ==> b[k].next == if k + 1 < |b| then b[k + 1] else null)
      && (forall k {:trigger a[k].prev} :: 0 <= k < |a| ==>
            a[k].prev == if k == 0 then FirstOf(this) else NextOf(a[k - 1]))
      && (forall k {:trigger b[k].prev} :: 0 <= k < |b| ==>
            b[k].prev == if k > 0 then NextOf(b[k - 1]) else if a == [] then FirstOf(this) else NextOf(a[|a| - 1]))
    }

    lemma JoinedIsValid(a: seq<Elm>, b: seq<Elm>)
      requires b != [] && Joined(a, b) && elms == a + b
      requires Distinct(a) && Distinct(b)
      requires forall k {:trigger a[k]} :: 0 <= k < |a| ==> a[k] !in b
      ensures Valid()
    {
      ConcatDistinct(a, b);
      forall k {:trigger elms[k].next} | 0 <= k < |elms|
        ensures elms[k].next == if k + 1 < |elms| then elms[k + 1] else null
      {
        if k < |a| { assert elms[k] == a[k]; } else { assert elms[k] == b[k - |a|]; }
      }
      forall k {:trigger elms[k].prev} | 0 <= k < |elms|
        ensures elms[k].prev == if k == 0 then FirstOf(this) else NextOf(elms[k - 1])
      {
        if k < |a| { assert elms[k] == a[k]; } else { assert elms[k] == b[k - |a|]; }
      }
    }

    /** Links of the elements `s` with `x` in place of element `i`. */
    ghost predicate Replaced(s: seq<Elm>, i: nat, x: Elm)
      requires i < |s|
      reads this, s, x
    {
      && first == (if i == 0 then x else s[0])
      && x.next == (if i + 1 < |s| then s[i + 1] else null)
      && x.prev == (if i == 0 then FirstOf(this) else NextOf(s[i - 1]))
      && (forall k {:trigger s[k].next} :: 0 <= k < |s| && k != i && k + 1 != i ==>
            s[k].next == if k + 1 < |s| then s[k + 1] else null)
      && (forall k {:trigger s[k].prev} :: 0 <= k < |s| && k != i && k != i + 1 ==>
            s[k].prev == if k == 0 then FirstOf(this) else NextOf(s[k - 1]))
      && (i > 0 ==> s[i - 1].next == x)
      && (i + 1 < |s| ==> s[i + 1].prev == NextOf(x))
    }

    lemma ReplacedIsValid(s: seq<Elm>, i: nat, x: Elm)
      requires i < |s| && Distinct(s) && x !in s && Replaced(s, i, x)
      requires elms == s[i := x]
      ensures Valid()
    {
      UpdateDistinct(s, i, x);
      var t := elms;
      forall k {:trigger t[k].next} | 0 <= k < |t| ensures t[k].next == if k + 1 < |t| then t[k + 1] else null {
        if k != i { assert t[k] == s[k]; }
      }
      forall k {:trigger t[k].prev} | 0 <= k < |t|
        ensures t[k].prev == if k == 0 then FirstOf(this) else NextOf(t[k - 1])
      {
        if k != i { assert t[k] == s[k]; }
      }
    }

    // ----- two lists

    ghost predicate Apart(other: Head)
      reads this, other
    {
      && this != other
      && forall k {:trigger elms[k]} :: 0 <= k < |elms| ==> elms[k] !in other.elms
    }

    /** LIST_CONCAT: with no tail pointer, the end of the first list is searched for. */
    method Concat(head2: Head)
      requires Valid() && head2.Valid() && Apart(head2)
      modifies this, elms, head2, head2.elms
      ensures Valid() && head2.Valid()
      ensures elms == old(elms) + old(head2.elms) && head2.elms == []
    {
      ghost var (a, b) := (elms, head2.elms);
      if a != [] { OnlyAt<Elm>(a, |a| - 1); }
      if b != [] { OnlyAt<Elm>(b, 0); }
      var curelm := first;
      if curelm == null {
        first := head2.first;
        if first != null {
          head2.first.prev := FirstOf(this);
          head2.first := null;
          elms, head2.elms := a + b, [];
          JoinedIsValid(a, b);
        }
      } else if head2.first != null {
        ghost var i := 0;
        while curelm.next != null
          invariant i < |a| && curelm == a[i]
          decreases |a| - i
        {
          assert a[i].next == curelm.next;
          curelm := curelm.next;
          i := i + 1;
        }
        assert a[i].next == null && i == |a| - 1;
        curelm.next := head2.first;
        head2.first.prev := NextOf(curelm);
        head2.first := null;
        elms, head2.elms := a + b, [];
        JoinedIsValid(a, b);
      }
    }

    method Swap(head2: Head)
      requires Valid() && head2.Valid() && Apart(head2)
      modifies this, elms, head2, head2.elms
      ensures Valid() && head2.Valid()
      ensures elms == old(head2.elms) && head2.elms == old(elms)
    {
      if elms != [] { OnlyAt<Elm>(elms, 0); }
      if head2.elms != [] { OnlyAt<Elm>(head2.elms, 0); }
      var swapTmp := first;
      first := head2.first;
      head2.first := swapTmp;
      swapTmp := first;
      if swapTmp != null {
        swapTmp.prev := FirstOf(this);
      }
      swapTmp := head2.first;
      if swapTmp != null {
        swapTmp.prev := FirstOf(head2);
      }
      elms, head2.elms := head2.elms, elms;
    }
  }

  // ----- operations that do not name the head

  method InsertAfter(listelm: Elm, elm: Elm, ghost head: Head)
    requires head.Valid() && listelm in head.elms && elm !in head.elms
    modifies head, head.elms, elm
    ensures head.Valid()
    ensures head.elms == InsertAt(old(head.elms), old(head.IndexOf(listelm)) + 1, elm)
  {
    ghost var s, i := head.elms, head.IndexOf(listelm);
    OnlyAt<Elm>(s, i);
    if i + 1 < |s| { OnlyAt<Elm>(s, i + 1); }
    elm.next := listelm.next;
    if elm.next != null {
      listelm.next.prev := NextOf(elm);
    }
    listelm.next := elm;
    elm.prev := NextOf(listelm);
    head.elms := InsertAt(s, i + 1, elm);
    head.SplicedIsValid(s, i + 1, elm);
  }

  method InsertBefore(listelm: Elm, elm: Elm, ghost head: Head)
    requires head.Valid() && listelm in head.elms && elm !in head.elms
    modifies head, head.elms, elm
    ensures head.Valid()
    ensures head.elms == InsertAt(old(head.elms), old(head.IndexOf(listelm)), elm)
  {
    ghost var s, i := head.elms, head.IndexOf(listelm);
    OnlyAt<Elm>(s, i);
    if i > 0 { OnlyAt<Elm>(s, i - 1); }
    assert listelm.prev == s[i].prev == if i == 0 then FirstOf(head) else NextOf(s[i - 1]);
    elm.prev := listelm.prev;
    elm.next := listelm;
    Store(listelm.prev, elm);
    listelm.prev := NextOf(elm);
    head.elms := InsertAt(s, i, elm);
    head.SplicedIsValid(s, i, elm);
  }

  method Remove(elm: Elm, ghost head: Head)
    requires head.Valid() && elm in head.elms
    modifies head, head.elms
    ensures head.Valid()
    ensures head.elms == RemoveAt(old(head.elms), old(head.IndexOf(elm)))
  {
    ghost var s, i := head.elms, head.IndexOf(elm);
    if i > 0 { OnlyAt<Elm>(s, i - 1); }
    if i + 1 < |s| { OnlyAt<Elm>(s, i + 1); }
    assert elm.prev == s[i].prev == if i == 0 then FirstOf(head) else NextOf(s[i - 1]);
    if elm.next != null {
      elm.next.prev := elm.prev;
    }
    Store(elm.prev, elm.next);
    forall k {:trigger s[k].next} | 0 <= k < |s| && k + 1 != i ensures s[k].next == old(s[k].next) {
    }
    forall k {:trigger s[k].prev} | 0 <= k < |s| && k != i + 1 ensures s[k].prev == old(s[k].prev) {
    }
    head.elms := RemoveAt(s, i);
    head.BypassedIsValid(s, i);
  }

  method Replace(elm: Elm, elm2: Elm, ghost head: Head)
    requires head.Valid() && elm in head.elms && elm2 !in head.elms
    modifies head, head.elms, elm2
    ensures head.Valid()
    ensures head.elms == old(head.elms)[old(head.IndexOf(elm)) := elm2]
  {
    ghost var s, i := head.elms, head.IndexOf(elm);
    if i > 0 { OnlyAt<Elm>(s, i - 1); }
    if i + 1 < |s| { OnlyAt<Elm>(s, i + 1); }
    assert elm.prev == s[i].prev == if i == 0 then FirstOf(head) else NextOf(s[i - 1]);
    elm2.next := elm.next;
    if elm2.next != null {
      elm2.next.prev := NextOf(elm2);
    }
    elm2.prev := elm.prev;
    Store(elm2.prev, elm2);
    forall k {:trigger s[k].next} | 0 <= k < |s| && k + 1 != i ensures s[k].next == old(s[k].next) {
    }
    forall k {:trigger s[k].prev} | 0 <= k < |s| && k != i + 1 ensures s[k].prev == old(s[k].prev) {
    }
    head.elms := s[i := elm2];
    head.ReplacedIsValid(s, i, elm2);
  }

  /** An element on two lists at once would break the first; operations on one valid list
      leave every list apart from it as it is.  Here: remove from one, insert into another. */
  method Move(elm: Elm, ghost from: Head, to: Head)
    requires from.Valid() && to.Valid() && from.Apart(to) && elm in from.elms
    modifies from, from.elms, to, to.elms
    ensures from.Valid() && to.Valid()
    ensures from.elms == RemoveAt(old(from.elms), old(from.IndexOf(elm)))
    ensures to.elms == [elm] + old(to.elms)
  {
    ghost var s, i := from.elms, from.IndexOf(elm);
    Remove(elm, from);
    assert to.Valid();
    RemoveAtDistinct(s, i);
    to.InsertHead(elm);
    assert from.Valid();
  }
}
